# A tiered-memory scheduler, modelled and proved

The program watches an application's mappings, samples its memory accesses, and
moves objects between DRAM and persistent memory. This project models its four
working parts and proves what they promise.

* **Hash map** (`Cyclic`, `RobinHood`, `Dictionary`, `HashMap`, `SipHash`). An
  open-addressed Robin Hood table with displacement insertion, backward-shift
  deletion, resizing and clearing, updated in place. Two items have the same key
  when their 48-bit hashes are equal and the comparison returns zero; that test is
  only asked to be an equivalence. Each map carries a ghost history of its calls,
  and every answer is proved equal to the one read off that history.
* **Registry** (`Tiers`, `Recorder`). Mappings are split into chunks, recorded in
  consecutive slots, removed by exact match and looked up by linear scan.
* **Scheduler** (`Policy`, `Trace`, `Rounds`, `Runs`, `Histories`, `Priority`,
  `Scenarios`, `Actuator`). `Policy` is one greedy, budgeted pass; `Trace` is the
  history of all bind orders; `Rounds` is the state machine of mappings, unmappings,
  windows and actuator rounds; `Runs` and `Histories` prove what holds over every
  run; `Priority` states exactly when the policies respect the hotness of objects;
  `Scenarios` gives runs from start-up that show where the code departs from its
  intent; `Actuator` is the loop itself, proved to take exactly the steps of the
  state machine.
* **Monitor** (`Metrics`, `Monitor`). Per-window counters, the moving averages, and
  store de-duplication through the hash map.

The environment is an input everywhere: allocation outcomes, clock readings, free
DRAM, page fractions, decoded samples, and the result of the library sort (any
sorted permutation, with ties in any order). Numbers in floating point are reals.

Where the code and its apparent intent differ, the model follows the code:

* For an exact multiple of the chunk size above one chunk, one chunk too many is
  recorded; `Tiers.ChunksTile` states exactly when (recorder.c:115-119).
* An unmapping goes to the lowest slot that matches, so a range mapped twice is
  released from its older slot; `Runs.RunUnmap` states exactly when an unmapping
  clears its own slots, and `Scenarios.RemappedChunk` is a run in which it does not
  (recorder.c:200-213).
* Loads and TLB counts are averaged with the old latency, because the old value is
  read once per level; `MetricsUpdate.CountsAverageThemselves` states for each of
  them exactly when this is its own average (monitor.c:97-112).
* Each hotness is scaled by the maxima at the time of its visit, so entries of one
  round are not all on one scale; `Rounds.EntryValue` states exactly when an entry
  is (actuator.c:162-171), and `Scenarios.EarlyVisitOutranks` is a run in which it
  matters. A comment there gives 2 as the largest value; `Rounds.HeatTop` states
  exactly when it is 3, and `Scenarios.HotnessOfThree` is a run that gets there.
* The sort covers all slots of the list, leftovers of earlier rounds included;
  `Rounds.PoliciesSeeCurrent` states exactly when the policies still see this
  round's objects only (actuator.c:185), and `Scenarios.FirstRoundHidesSlot` is a
  run in which they do not. The results about order histories and budgets need no
  such condition: duplicates and dead entries are covered by the guards. Priority
  always holds between the entries of the list (`Runs.RoundPriority`). Between
  objects `Priority.PriorityExact` states exactly which sorted lists guarantee it;
  a list without a leftover in the way is one (`Runs.ColdLeftoversPriority`), and in
  `Scenarios.HottestDemoted` the hottest object is demoted through a leftover while
  a cold one stays in DRAM.
* A comment says that demotion waits three periods; it waits two low-DRAM rounds
  (actuator.c:507). `Runs.RunCoolDown` states this for every run, and
  `Scenarios.CoolDownRun` is a run that demotes, waits twice and demotes again.
* Intervals are closed at both ends, so a chunk boundary belongs to the lower
  chunk (monitor.c:157).
* The address comparison returns zero for any two different locations, so in the
  monitor's map two addresses are the same key when their hashes are
  (monitor.c:60-68).

In one place the code has no meaning to follow: `sort_objects` tests `obj_alloc`
with an index that is not yet assigned (actuator.c:142). The slot being visited is
meant, and that is what is modelled.

Run `dafny verify dfyconfig.toml` to check everything.

## Model

| member | source | states |
|---|---|---|
| Cyclic.MaskIsMod | hashmap.c:221-233 | masking a hash with a power of two less one is its remainder, for every hash and every power |
| Cyclic.MaskNext | hashmap.c:233 | masking the successor of a slot index steps once around the ring |
| Cyclic.Pow2Gap | hashmap.c:90-98 | two powers of two differ by a factor of at least two, so a rounded capacity that is already a power is kept |
| RobinHood.ClimbFrom | hashmap.c:269-292 | after an empty slot `dib` never exceeds the cyclic distance from that slot |
| RobinHood.RunBehind | hashmap.c:303-314 | no slot between an entry and its home is empty, and each holds a `dib` at least its distance from that home plus one |
| RobinHood.ProbeComplete | hashmap.c:303-314 | a probe that stops at an empty slot, or at an occupant closer to home than itself, has proved its key absent from the whole table |
| RobinHood.FindEmpty | hashmap.c:256-261 | a table with fewer entries than slots has an empty slot, which is what ends every probe |
| RobinHood.DibBound | hashmap.c:30-33 | no `dib` exceeds the number of occupied slots |
| RobinHood.ItemCount | hashmap.c:373-376 | with distinct keys the number of items is the number of occupied slots |
| RobinHood.CarriedRoom | hashmap.c:269-292 | a displaced entry is never further from its home than from any empty slot, so its `dib` never wraps around the ring |
| RobinHood.SwapSlot | hashmap.c:285-291 | a Robin Hood swap keeps every `dib` exact and the rise per slot at most one, including at the wrap-around |
| RobinHood.SwapContents | hashmap.c:285-289 | a swap exchanges exactly the carried and the evicted item and leaves no two equal keys |
| RobinHood.PlaceSlot | hashmap.c:272-275 | placing a carried entry in an empty slot keeps the whole invariant and adds exactly its item |
| RobinHood.ReplaceSlot | hashmap.c:277-284 | replacing an equal item in place keeps the whole invariant and exchanges exactly that item |
| RobinHood.InsertAbsent | hashmap.c:285-291 | before anything is moved, the probe has proved that no equal key is stored anywhere |
| RobinHood.InsertPlace | hashmap.c:272-275 | an insertion that ends in an empty slot stored a key that was absent, added exactly one item and one occupied slot |
| RobinHood.InsertReplace | hashmap.c:277-284 | the replace branch fires only for the key being set, never for a displaced entry, and only while the table is untouched |
| RobinHood.InsertSwap | hashmap.c:285-291 | one swap step keeps the state of an insertion and comes closer to an empty slot |
| RobinHood.InsertPass | hashmap.c:290-291 | one step without a swap keeps the state of an insertion and comes closer to an empty slot |
| RobinHood.MovedNext | hashmap.c:349-359 | one step of the backward shift moves the next displaced entry back, or finishes at the first `dib` of at most one |
| RobinHood.ShiftExact | hashmap.c:349-359 | after a backward shift every `dib` is exact again |
| RobinHood.ShiftGradual | hashmap.c:349-359 | after a backward shift `dib` still rises by at most one per slot, so no tombstone is needed |
| RobinHood.ShiftBackCorrect | hashmap.c:344-360 | a backward shift keeps the whole invariant and removes exactly the matched item and one occupied slot |
| Dictionary.ReplayFunctional | hashmap.c:247-250 | after any history of calls no two stored items have the same key |
| Dictionary.ReplayIsLastWrite | hashmap.c:295-296 | an answer is that of the finite map if and only if it is the last item set under the key and not deleted or cleared since |
| HashMaps.HashMap.Allocate | hashmap.c:109-134 | a new map is empty and in the table invariant, with its limits derived from its size |
| HashMaps.HashMap.New | hashmap.c:74-135 | the capacity is the least power of two that is at least 16 and at least the wish; there is no map exactly when an allocation fails |
| HashMaps.HashMap.Reinsert | hashmap.c:216-235 | re-placing one old entry by its stored hash adds exactly it to the new table, disturbs only its own old slot, and looks at no more slots than there are |
| HashMaps.HashMap.Rehash | hashmap.c:215-236 | re-placing every old entry gives a table in the invariant with the same items and count |
| HashMaps.HashMap.Resize | hashmap.c:208-245 | growing or shrinking keeps items and count although the scratch map has other seeds; without memory nothing changes |
| HashMaps.HashMap.Set | hashmap.c:251-293 | returns the last item stored under the key, stores the new one, counts it once; fails exactly at the growth limit without memory, and then changes nothing |
| HashMaps.HashMap.Insert | hashmap.c:264-292 | stores the item as the finite map does, answers with the item replaced, and looks at no more slots than there are |
| HashMaps.HashMap.Probe | hashmap.c:301-314 | finds the slot of a key, or proves that no slot holds it, looking at no more slots than there are |
| HashMaps.HashMap.Get | hashmap.c:297-315 | returns exactly the last item set under the key and not deleted or cleared since, over the whole history of calls |
| HashMaps.HashMap.ShiftBack | hashmap.c:348-359 | the run of displaced entries after the slot, and only it, moves back one slot with each `dib` reduced by one; the run is shorter than the ring |
| HashMaps.HashMap.RemoveAt | hashmap.c:348-360 | takes exactly one entry out and keeps the table invariant and the count |
| HashMaps.HashMap.Delete | hashmap.c:332-371 | removes the key and returns its last item, which survives a shrink; the size halves exactly when it may and memory allows |
| HashMaps.HashMap.Clear | hashmap.c:188-205 | forgets everything at the right size, inside the old array when no new one can be had |
| HashMaps.HashMap.Bounds | hashmap.c:129-130 | in every valid state `dib` is at most the growth limit, so it fits 16 bits up to 65536 buckets, at most three quarters of the buckets are used, and the count is the number of keys the history leaves |
| SipHash.PaperVector | hashmap.c:464-524 | the 15 bytes 00 to 0e under the key 00 to 0f hash to the published test vector (appendix A of the paper by Aumasson and Bernstein) |
| SipHash.WordValue | hashmap.c:467-471 | a word is the number its eight bytes stand for in base 256, lowest first |
| SipHash.BitsValue | hashmap.c:467-504 | the bytes of a number, read back as a word, are that number modulo 2^64 |
| SipHash.HashOfNumber | hashmap.c:464-524 | the hash of an eight-byte number absorbs exactly that number and then the word with the length |
| SipHash.LastWord | hashmap.c:503-514 | the word the fall-through tail builds is the last little-endian word of the padded message, for every length |
| SipHash.DigitValue | hashmap.c:504 | the last padded byte is the length modulo 256 |
| SipHash.PaddedInjective | hashmap.c:496-517 | different messages give different padded messages, of every length |
| SipHash.BlocksArePadded | hashmap.c:496-502 | the full blocks of a message are the first words of its padding |
| SipHash.FallThrough | hashmap.c:503-514 | falling through the switch joins the length byte and exactly the bytes of the tail |
| SipHash.Sip64 | hashmap.c:464-524 | for every message the block loop and the tail compute SipHash-2-4 (section 2 of the paper by Aumasson and Bernstein) of the padded message; `SipHash.WordValue` and `SipHash.PaperVector` say what its words are |
| Tiers.ChunksTile | recorder.c:106-122 | the recorded chunks tile the mapping exactly if and only if its size is at most one chunk or no multiple of it; otherwise they run exactly one chunk past its end |
| Tiers.ChunkShape | recorder.c:111-119 | chunk j starts j chunks into the mapping and no piece exceeds a chunk |
| Tiers.AppendAllSlots | recorder.c:143-152 | the new slots hold the pieces in order, are live, and nothing else changes |
| Tiers.AppendRecords | recorder.c:143-158 | each new slot has the start, end, size, page count, time, index and process of its piece, and keeps its decision, page status and metrics |
| Tiers.AppendOrders | recorder.c:160 | recording appends exactly one order per piece, of its address and size, to DRAM, at the time read for it |
| Tiers.AppendAllAppendOnly | recorder.c:132-163 | recording a mapping keeps the registry append-only and its slots within a chunk |
| Tiers.ReleaseAppendOnly | recorder.c:166-193 | removing a mapping keeps the registry append-only |
| Tiers.BoundedScan | recorder.c:199-215 | a scan bounded by the number of slots handed out finds what a scan of all slots finds |
| Tiers.ReleaseOwn | recorder.c:195-216 | each piece is found in the slot it was recorded in |
| Tiers.ReleaseExact | recorder.c:195-216 | releasing a piece clears exactly the lowest live slot whose start and size both equal its own; with no such slot nothing changes |
| Tiers.ReleaseAllExact | recorder.c:166-216 | releasing pieces at different addresses clears exactly the lowest such slot of each, as they were before |
| Tiers.UnmapExact | recorder.c:166-216 | unmapping any range, mapped like that or not, clears exactly the lowest live slot with the start and size of each of its pieces, and changes nothing when there is none |
| Tiers.UnmapClears | recorder.c:166-216 | in every state that holds the pieces of a mapping, wherever they are and whatever else is recorded, releasing them clears exactly their slots, if and only if no live slot below them records one of the pieces |
| Tiers.ReleaseHitsLower | recorder.c:200-213 | releasing a piece that a lower live slot also records kills some lower slot |
| Tiers.LookupResolves | monitor.c:153-165 | the linear scan has exactly one answer: the lowest live slot with the address between its start and its end, ends included, or -1 |
| Tiers.LookupIsArithmetic | monitor.c:153-165 | in every state that holds a mapping, wherever it is and whatever else is recorded, an address inside it resolves to the slot arithmetic predicts (one lower at a positive multiple of the chunk size), if and only if no live slot below the mapping touches the address |
| Recorder.TierManager.constructor | recorder.c:74-97 | start-up leaves an empty append-only registry of blank slots |
| Recorder.TierManager.Initialize | recorder.c:74-97 | every slot is dead and blank afterwards |
| Recorder.TierManager.InsertSlot | recorder.c:129-164 | the piece goes to the first slot that is not live, with an initial placement order; with no such slot nothing is recorded |
| Recorder.TierManager.RoomNoExit | recorder.c:134-141 | in every valid state with room the next slot is free, so the exit for a full vector is never reached |
| Recorder.TierManager.InsertObject | recorder.c:99-127 | the pieces of the mapping take the next slots in order and the registry stays append-only; with too few slots left exactly the pieces that fit are recorded before the code leaves the vector |
| Recorder.TierManager.DeallocateSlot | recorder.c:195-216 | clears exactly the lowest live slot whose start and size are both those of the piece, and reports whether there was one |
| Recorder.TierManager.DeallocateObject | recorder.c:166-193 | releases the same pieces that recording created, in the same order; exactly the lowest live slot with the start and size of each piece dies |
| Recorder.TierManager.GetVectorIndex | monitor.c:153-165 | the lowest live slot whose closed interval holds the address, or -1 when there is none |
| MetricsUpdate.LatencyClosedForm | monitor.c:96-98 | after any number of windows the latency is the geometric weighted sum of all window latencies |
| MetricsUpdate.LoadsClosedForm | monitor.c:100-112 | loads and TLB counts keep one window of their own and the latency history before it |
| MetricsUpdate.StoresAddUp | monitor.c:117-120 | store counts are not averaged but added up over any number of windows |
| MetricsUpdate.CountsAverageThemselves | monitor.c:100-112 | at each level the load count, the TLB hits and the TLB misses are each a moving average of themselves if and only if the old latency equals the old count |
| MetricsUpdate.LoadsDriftFromLatency | monitor.c:100-102 | from start-up, one load of 30 cycles and then an empty window leave a load count of 6.633 where its own moving average is 0.2211 |
| MetricsUpdate.MetricsBounded | monitor.c:92-115 | if every window stays in a range, all averaged metrics stay in it over every run |
| Policy.MoveLocal | actuator.c:253-255 | an order makes its own object ineligible and changes no other object's eligibility or share |
| Policy.ScanOrders | actuator.c:209-261 | a pass appends to the history exactly one order per picked entry, in order, each for that entry's object |
| Policy.IssuedSound | actuator.c:232-261 | every order a pass appends is for an object eligible when the pass began, and no slot is ordered twice, even with duplicate list entries |
| Policy.PickedOrdered | actuator.c:232-261 | an object is picked exactly when the pass appends an order for it |
| Policy.ScanComplete | actuator.c:232-261 | an eligible entry is passed over only when its object was already picked or the picks before it move, in size times page fraction, more than the budget |
| Policy.PassedOver | actuator.c:232-261 | on the orders: an eligible entry is passed over only when its object was ordered, or the orders issued before it move, in size times page fraction, more than the budget |
| Policy.PassEffect | actuator.c:253-320 | a pass leaves every slot without an order as it was, and marks an ordered slot with that decision and, after a promotion, that time, and changes nothing else of it |
| Policy.NoOvertaking | actuator.c:232-261 | when an entry is ordered, every eligible entry examined before it has an order for its object too |
| Policy.HotterPromoted | actuator.c:232-261 | among the list entries a pass examines: when one is picked for promotion, the object of every hotter eligible entry has an order too |
| Policy.ColderDemoted | actuator.c:295-325 | among the list entries a pass examines: when one is picked for demotion, the object of every colder eligible entry has an order too |
| Policy.PassBudget | actuator.c:221-261 | the orders a pass appends move at most two chunks, all but the last at most one, and each promotion less than the free DRAM read, all in size times page fraction |
| Policy.OrdersMeaningful | actuator.c:232-318 | every order appended names a live slot with its address, size and target node; a promotion is of an object listed above the threshold whose pages in PMEM fit the free DRAM, a demotion of one listed below it, older than five seconds, with more than the least size in DRAM |
| Policy.NoFlapping | actuator.c:232-325 | one round appends a demotion and a promotion of the same slot only if the list holds entries of it on both sides of the threshold |
| Policy.DemotionCount | actuator.c:286-322 | a demotion pass appends at most eleven orders |
| Trace.MoveKeeps | actuator.c:236-255 | an eligible move keeps the order history disciplined and in agreement with decision and birth date |
| Trace.ScanKeeps | actuator.c:232-261 | a whole pass keeps the order history disciplined on a non-decreasing clock |
| Trace.AppendKeeps | recorder.c:143-160 | recording a mapping keeps the order history disciplined |
| Trace.MovesAlternate | actuator.c:236-255 | consecutive moves of a slot alternate between promotion and demotion, each of a slot live at that moment |
| Trace.PromotionsSpaced | actuator.c:254-301 | two promotions of one slot are more than five seconds apart |
| Rounds.HeatRange | actuator.c:162-171 | a hotness lies between zero and three |
| Rounds.HeatTop | actuator.c:162-171 | a hotness is three if and only if the slot reaches all three maxima |
| Rounds.HeatPerGauge | actuator.c:162-171 | metrics that differ in one of the three readings differ in hotness by exactly that difference over its maximum |
| Rounds.BlankHeat | actuator.c:171 | what was never sampled has hotness zero, so with `Rounds.HeatPerGauge` the hotness is determined |
| Rounds.EntryMakeup | actuator.c:171-181 | an entry carries the loads, stores and TLB misses of its slot at the memory level, and its value is made of exactly these over the maxima at its visit |
| Rounds.EntryValue | actuator.c:141-181 | an entry's value is its hotness under the round's final maxima if and only if, for each metric it has, no live slot visited later reads more than the starting maximum and every live slot up to it; otherwise it is too high |
| Rounds.CollectLive | actuator.c:141-182 | the entries are of live slots in slot order, in range, and the maxima never decrease |
| Rounds.CollectAll | actuator.c:141-182 | every live slot has an entry |
| Rounds.PoliciesSeeCurrent | actuator.c:183-185 | however ties are ordered, the active part of the sorted list is exactly this round's entries, if and only if every leftover of earlier rounds is colder than every current entry or the very same entry |
| Rounds.HotLeftover | actuator.c:183-185 | for every leftover at least as hot as a different current entry, an arrangement the sort may return in which the policies do not see exactly this round's entries |
| Runs.DemotionPaced | actuator.c:500-511 | the demotion part of a round keeps flag and counter in step with the history of rounds |
| Runs.RoundKeeps | actuator.c:496-518 | a round keeps the invariant of the whole system |
| Runs.RoundIssues | actuator.c:496-518 | a round appends to the history its demotions and then its promotions and nothing else, and logs exactly the number of its demotions |
| Runs.WindowKeeps | monitor.c:564-676 | a sampling window keeps the invariant of the whole system |
| Runs.MapKeeps | recorder.c:99-164 | a mapping keeps the invariant of the whole system |
| Runs.UnmapKeeps | recorder.c:166-216 | an unmapping keeps the invariant of the whole system |
| Runs.Exec | actuator.c:480-519 | after every possible sequence of mappings, unmappings, windows and rounds: the system invariant holds, every listed hotness is in [0,3], moves of a slot alternate on live slots, promotions of a slot are more than five seconds apart, demotion cools down for two low-DRAM rounds, and the rounds account for every demotion order in the history |
| Runs.GoodOrders | actuator.c:236-318 | a disciplined history has every move on a live slot, consecutive moves of a slot alternating, and promotions of a slot more than five seconds apart |
| Runs.PacedCoolsDown | actuator.c:500-511 | after a demoting round the first two low-DRAM rounds demote nothing and the third runs the policy again, for the counts that `Runs.RoundIssues` ties to the orders |
| Runs.RunCoolDown | actuator.c:500-511 | over every run, on the orders themselves: after an action that orders a demotion the first two low-DRAM rounds append none, and the third appends exactly what the demotion pass issues then |
| Runs.RunMetrics | monitor.c:83-138 | over every run the metrics of a slot are the fold of exactly the windows that found it live, its latency their weighted sum and its store count their plain sum, whatever is interleaved |
| Runs.RunBounded | monitor.c:83-138 | over every run, if every window that found a slot live stays in a range, so do the averaged metrics of that slot |
| Runs.SlotsPermanent | recorder.c:132-163 | over every run and every continuation, a slot once handed out keeps its address and size and once dead stays dead |
| Runs.RunUnmap | recorder.c:99-216 | over every run, unmapping a mapping that is still wholly live, whatever happened in between, clears exactly its slots, if and only if no live slot below them records one of its pieces |
| Histories.RunUnmapExact | recorder.c:166-216 | the same after every run: unmapping any range kills exactly the lowest live slot with the start and size of each piece, and nothing else in the system changes |
| Histories.RunAccounted | recorder.c:143-163 | over every run every bind order names the address and size on record for its slot and the node of its kind, was given while the slot was live, and the initial placements are one for each slot handed out, in slot order |
| Histories.RunMaxima | actuator.c:162-170 | over every run each maximum is the larger of one and the largest reading that a round has found on a live slot |
| Histories.RunScale | actuator.c:141-171 | so each metric of a slot is scaled by the largest of one, what earlier rounds have read, and what this round reads on the live slots up to it |
| Runs.RunLookup | recorder.c:99-163 | over every run, an address inside a mapping that is still wholly live resolves to the slot arithmetic predicts, if and only if no live slot below the mapping touches it |
| Runs.RoundPriority | actuator.c:185-325 | in every round, on the registry each policy sees: when a list entry is picked, the object of every better eligible entry of the list has an order too |
| Runs.ObjectPriority | actuator.c:141-325 | in every round whose policies see exactly this round's entries: an object that meets every condition of the policy, judged without the list, is ordered whenever an object that is colder (for promotion) or hotter (for demotion) by this round's hotness is |
| Runs.ColdLeftoversPriority | actuator.c:141-325 | the same priority of objects in every round that starts with each leftover of the list colder than each current entry or the very same entry, whatever the sort does with ties |
| Priority.PriorityExact | actuator.c:185-325 | whatever a round reads beside the sorted list, no object that meets every condition of the policy is left without an order while a worse one is ordered, if and only if, for any two live objects the policy could still move, each qualifying entry of the worse one comes after an entry of the better one in the active part of the list |
| Priority.CurrentRanked | actuator.c:183-325 | a list whose active part is exactly this round's entries meets that condition |
| Runs.RoundServes | actuator.c:141-325 | in every round whose policies see exactly this round's entries, an object that meets every condition of a policy that runs is ordered, or the orders of that policy already move, in size times the fraction read, more than the budget |
| Runs.RoundBudget | actuator.c:500-515 | in every reachable round the demotions and the promotions appended to the history each stay within the migration budget, and the demotions are at most eleven |
| Runs.RoundTraffic | actuator.c:221-325 | the same budget on the readings: size times the fraction read, summed over the orders of a kind, is at most two chunks, all but the last at most one, and each promotion is below the free DRAM read |
| Scenarios.EarlyVisitOutranks | actuator.c:141-181 | a run from start-up in which ten loads outrank fifty because they were visited before the maximum rose |
| Scenarios.HotnessOfThree | actuator.c:162-171 | a run from start-up in which an object has hotness 3 |
| Scenarios.FirstRoundHidesSlot | actuator.c:178-185 | a run from start-up whose first round leaves a live object out of the active part of the list, because the zeroed leftovers tie with it |
| Scenarios.HottestDemoted | actuator.c:178-325 | a run from start-up whose low-DRAM round demotes an object of hotness 3 and nothing else, while a live object of hotness 0 meets every condition of the policy |
| Scenarios.CoolDownRun | actuator.c:500-511 | a run from start-up with a demotion, two low-DRAM rounds without one, and a third that demotes again |
| Actuators.Actuator.constructor | actuator.c:47-61 | the actuator starts without a demotion, with maxima of one and a zeroed list |
| Actuators.Actuator.CollectEntries | actuator.c:141-183 | the live slots' entries overwrite the front of the list and the rest is left over |
| Actuators.Actuator.RaiseMaxima | actuator.c:162-170 | each maximum becomes the larger of itself and the metric |
| Actuators.Actuator.SortObjects | actuator.c:129-208 | list, active count, maxima and promotion flag are those of the round |
| Actuators.Actuator.ReadAllocationStatus | actuator.c:433-449 | exactly the live slots take the page fractions read |
| Actuators.Actuator.Issue | actuator.c:209-255 | one order is appended to the history and exactly its slot is marked |
| Actuators.Actuator.PolicyPromotion | actuator.c:221-278 | the loop with its early break computes the pass from the hottest entry down |
| Actuators.Actuator.PolicyDemotion | actuator.c:279-342 | the loop computes the pass from the coldest entry up and the flag tells whether it ordered anything |
| Actuators.Actuator.ConsiderDemotion | actuator.c:500-511 | the demotion part of a turn, with its cool-down counter, is that of the state machine |
| Actuators.Actuator.ConsiderPromotion | actuator.c:512-515 | the promotion part of a turn is that of the state machine |
| Actuators.Actuator.Turn | actuator.c:496-518 | one turn of the loop is exactly one round of the state machine |
| Actuators.StartUp | start_threads.c:136-142 | what the two constructors build is the state that every run starts in, whatever the shared memory held |
| Scenarios.RemappedChunk | recorder.c:195-216 | a run from start-up in which a range mapped twice is unmapped from the older slot and stays live in the newer one |
| Monitors.Monitor.constructor | monitor.c:475 | the monitor starts with an empty map and nothing counted |
| Monitors.Monitor.ClearMetrics | monitor.c:139-152 | every counter of the window is zero again and nothing else changes |
| Monitors.Monitor.AccountLoad | monitor.c:612-660 | a load raises its level's count, and hit or miss and latency as the TLB result says |
| Monitors.Monitor.AccountStore | monitor.c:662-669 | a store is counted exactly when its key was never stored before in the map's history |
| Monitors.Monitor.Account | monitor.c:596-669 | a sample adds its contribution to exactly the counters of the slot its address resolves to, no other slot changes, and the store counter of that slot rises by one exactly for a store whose key the map's history does not hold |
| Monitors.Monitor.UpdateSlot | monitor.c:95-120 | the loop over levels computes the averaged metrics of a slot |
| Monitors.Monitor.UpdateMetrics | monitor.c:83-138 | exactly the live slots take the averaged metrics |
| Monitors.Monitor.CountStore | monitor.c:662-669 | a store under a new key is counted on its slot and its key remembered, or counted as a failure exactly when no memory was found |
| Monitors.Monitor.AccountNext | monitor.c:596-669 | one more sample keeps the counters equal to what the samples so far amount to |
| Monitors.Monitor.AccountAll | monitor.c:564-676 | after all samples of a window the counters are what the samples amount to |
| Monitors.Monitor.Window | monitor.c:564-676 | after a window every load counter is the sum of its samples' contributions; the store counter of each slot is the number of samples that stored inside it under a key neither held when the window began nor stored by an earlier sample that found memory; and the shared metrics take one step |
| Monitors.TotalsCount | monitor.c:612-660 | these sums are, per slot and level, the number of loads, of TLB hits and of TLB misses among the samples, and the weights of the hits and misses |
| Monitors.TracksNext | monitor.c:662-669 | after every sample the keys that the map holds are those held when the window began and those stored since |
| Monitors.NewStoresNext | monitor.c:662-669 | a sample joins the new stores of its slot exactly when its key is not held |
| Monitors.Monitor.StoresCounted | monitor.c:662-669 | over all windows the stores counted are the map's count plus the failed allocations; without failures, the number of distinct keys ever stored to inside a live object |
| Monitors.KeysSize | monitor.c:60-68 | under a comparison that never tells equal hashes apart, the keys stored are as many as the distinct hashes |
| Monitors.AddressLawful | monitor.c:60-79 | the monitor's callbacks make two addresses the same key exactly when their 48-bit hashes agree, which is an equivalence |
| Monitors.HashAddress | monitor.c:76-79 | the hash of an address is SipHash-2-4 of its eight bytes |
| Monitors.AddressAbsorbed | monitor.c:76-79 | that hash absorbs the address as a 64-bit number and then the length of eight bytes |
| Monitors.StartMonitor | monitor.c:475 | the monitor starts with an empty map of 16 buckets keyed by the address hash; there is none exactly when an allocation fails |

## Left out

- HashMaps.HashMap.New: does not model the `int` overflow of the doubling loop for wishes above 2^30, because sizes are unbounded numbers here.
- HashMaps.HashMap.Bounds: states the 16-bit bound of `dib` up to 65536 buckets; for larger tables the stored `dib` is an unbounded number here and a probe longer than 65535 slots would wrap in the bit field.
- HashMaps.HashMap.Set: a null item stops the program and is not modelled; items are values. The scratch use of the spare bucket during swaps is a local variable.
- SipHash.Sip64: takes lengths, seeds and addresses as the little-endian bytes of numbers; a machine of the other byte order is not modelled.
- Runs.RoundBudget: page fractions above one are excluded, here and in `Runs.RoundTraffic`; the query code does not reset its accumulator between objects, so its readings are taken as inputs.
- Priority.PriorityExact: page readings are free inputs, above one included, so for readings of at most one a list that fails the condition may do no harm where the budget is not reached; for promotion it is about rounds in which the demotion policy does not run, and `Runs.ObjectPriority` covers the others one way.
- Raw memory layout, `elfree`, `hashmap_scan`, `hashmap_iter`, `hashmap_probe`, `hashmap_free` and MurmurHash3.
- Event set-up, ring-buffer reading and the decoding of data-source bits; samples arrive decoded.
- NUMA queries, `mbind`, pipes and time stamps; the wait for DRAM to run low before the first round; the error channel that would reset decisions, which the loop does not call.
- Interleavings inside a step: the threads share memory without locks, and each insertion, removal, window and round is one atomic step here.
- Address and size arithmetic is unbounded; 64-bit wrap-around of `start + size` is not modelled.
- track_mapping.c, libsyscall_intercept.c, lock_memory.c, start_threads.c, the plots and the scripts.
