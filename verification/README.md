# Verified models of the Xen bus drivers' stateful algorithms

The drivers in this repository run in the Windows kernel of a Xen guest. This project models
the algorithms in them that keep state over many calls, or share it with other processors or
with the hypervisor, and proves what they promise. Methods are written in the form of the C
code (fields updated in place, the same loops, branches and error exits) and are proved against
specification functions; what the code promises is then proved as lemmas and as invariants
that every method keeps.

| file | what it models |
|---|---|
| EventWord.dfy | one 32-bit FIFO event word and the compare-and-exchange loops on it, while other agents write to it |
| FifoMachine.dfy, RawWords.dfy | the FIFO event queues as a machine of atomic steps: the hypervisor appends, the guest's per-CPU pollers take off, in any interleaving; and the same steps on packed words |
| EvtchnFifo.dfy | the guest's poll code over those queues, with other agents' steps between any two of its accesses |
| EventArray.dfy | the pages that hold the event words, and their expansion with rollback |
| EvtchnMachine.dfy | event channels going through per-CPU pending lists, flushes and the two-part close, as a machine of atomic steps |
| Evtchn.dfy | the callback, poll, flush, trigger, reap and close code, with other agents' steps between any two of its accesses, shown to be a run of that machine |
| Slabs.dfy, SlabCache.dfy | the slab cache: slabs in order of occupancy, cursor, magazines, filling, spilling, destruction |
| CacheMask.dfy | the bit masks of a slab as 32-bit words, refining a set of indices |
| Geometry.dfy | rounding up to a power of two, and where objects lie in a slab |
| HeapSort.dfy, Balloon.dfy | the in-place heap sort of frame numbers, and inflating and deflating the balloon |
| RangeSet.dfy | the range set, a sorted list of ranges with a cursor, refining a set of integers |
| ModuleMap.dfy | the map of loaded modules, which evicts what a new module overlaps |
| Gnttab.dfy | grant references: frames, free references and constructed entries |
| GrantMap.dfy | mapping and unmapping pages that other domains have granted |
| Console.dfy | the console rings, with wrapping 32-bit indices |
| Registry.dfy | encoding and decoding REG_MULTI_SZ values |

## What the code does that its comments do not say

- The poller takes the highest set bit of the ready word first. In the FIFO event channel ABI
  priority 0 is the highest, so the lowest priority is served first. The model follows the code.
- A close that runs on another CPU than its channel's can be overtaken: if the channel is still on
  its CPU's pending list, or has just been looked up by a poll, when it is marked closed, a flush
  can free it before the close's own trigger, which then queues freed memory.
  `EvtchnMachine.MarkIsSafeIff` says exactly when this cannot happen, and
  `EvtchnMachine.FreedIsQueued` is a run on two CPUs in which it does. Every other result about
  closing and freeing holds of all runs in which no close is overtaken, whether or not channels
  are pending when they are closed.
- Revoking a grant reports success except when it is the hundredth attempt that succeeds, so
  also when none does. `Gnttab.GnttabContext.GnttabRevokeForeignAccess` states exactly when the
  report is right.
- A slab whose object size lies between a page less its header and a page less half its header
  has two objects in two pages, and the second object's page is not its slab.
  `Geometry.AlignsToSlabIff` gives the exact sizes.
- If expanding the event array fails after the hypervisor has accepted some of the new pages,
  the guest frees pages that the hypervisor still uses.
  `EventArray.EvtchnFifoArray.EvtchnFifoExpand` says exactly when the two agree.
- A range set that could not allocate a list entry has its cursor on the list's anchor, unless
  the interval lay between members of the set; see `RangeSet.RangeSetContext.Put`.
- The balloon reports a request that it has met in full as one to retry when its last batch was
  slow: `Balloon.MetButRetried`, and for all requests `Balloon.ShortOrSlow`.
- Encoding a list of strings fails from 65536 bytes on, because the count of room left has only
  16 bits: `Registry.RegistryAnsiToMultiSz`.

## What is assumed of the environment

- FIFO event channel ABI (Xen's public event channel header): raising an event on a port that is
  not linked sets LINKED, then writes the link of the queue's last word if that word is still
  linked, and otherwise writes the control block head and sets the ready bit. This is taken as
  one atomic step. A port that is appended is no longer remembered as the tail of the queue it
  was in before. Other agents may change PENDING, MASKED and BUSY at any time.
- A vCPU's shared ready word is a set of priorities, and is exchanged whole.
- An interrupt lock is per CPU, and a CPU that is polling does nothing else meanwhile. A flush of a
  CPU runs on it, at the level at which closes run, so neither starts in the middle of the other
  on one CPU; some trigger may have asked for a flush of any CPU at any time. (The flushes of the
  last release run elsewhere, but then no close is under way.) Closing a channel is asked for
  once, and a channel is not triggered after that. A channel is bound to another CPU only while
  it is not pending and no poll has looked it up. IDs of channels stand for their addresses and
  are not used again.
- The memory manager hands out distinct fresh frames and takes frames back without fail, and the
  balloon's range set has memory when an inflation puts frames into it. What the system can spare, how long that takes and how
  much of its request each hypercall does are given turn by turn, as any function of the turn.
- The memory pool returns page-aligned slabs, never one that is in use. Fewer than 2^32 objects
  fit, so that the 32-bit sum compared with the cap does not wrap.
- A module's last address does not lie beyond the 64-bit address space.
- Putting the reference of a destroyed grant entry back finds memory, as the code asserts.
- The reader and the writer of a console ring keep its indices as the protocol says.
- Converting between ANSI and Unicode copies each character; a conversion fails if twice the
  string's length does not lie below the room given, or a NUL-ended copy has more than 65535
  bytes.

## Model

| member | source | states |
|---|---|---|
| EventWord.UnlinkDecodes | src/xenbus/evtchn_fifo.c:146-161 | On every raw word, the mask used clears the linked flag and the link and leaves the other flags |
| EventWord.PackedDecodes | src/xenbus/evtchn_fifo.c:100-161 | Whatever the flags, the link and the other bits, a packed word reads back as those flags and that link |
| EventWord.EventCell.UnlinkLoop | src/xenbus/evtchn_fifo.c:145-161 | Whatever other agents store meanwhile, the loop returns the link of the very word its exchange replaced, and loses none of their stores |
| EventWord.EventCell.UnmaskLoop | src/xenbus/evtchn_fifo.c:452-473 | The mask is cleared in a word that was not busy, its other bits being kept; pending is what the word says when it is tested afterwards, whatever others store in between |
| FifoMachine.StepKeeps | src/xenbus/evtchn_fifo.c:300-393 | The queue invariant survives every append, flag change and poller step |
| FifoMachine.RunKeeps | src/xenbus/evtchn_fifo.c:300-393 | And so every interleaving of any number of them |
| FifoMachine.ChainIsQueue | src/xenbus/evtchn_fifo.c:312-333 | A chain starts at the cached head, or at the control block head when that is 0, and visits exactly the queue's ports, without repetition, ending at link 0 |
| FifoMachine.FollowsUnique | src/xenbus/evtchn_fifo.c:312-333 | There is only one chain from a start, so the previous row determines the queue |
| FifoMachine.QueueIsFifo | src/xenbus/evtchn_fifo.c:300-393 | In every run the ports unlinked from a queue are a prefix of those appended to it, and the rest is exactly what is chained; it is not empty just if the queue's ready bit is set, shared or in its poller's hands |
| FifoMachine.LinkedOnce | src/xenbus/evtchn_fifo.c:300-347 | A linked port is in exactly one queue: none is lost or shared |
| FifoMachine.NothingStranded | src/xenbus/evtchn_fifo.c:379-389 | When a CPU's poller has returned its cached heads are 0 and each of its queues has ports just if its shared ready bit is set |
| FifoMachine.NeverStuck | src/xenbus/evtchn_fifo.c:349-393 | A poller that has started always has a next step, whatever the others did |
| RawWords.RawStepDecodes | src/xenbus/evtchn_fifo.c:145-161 | Raising, linking, changing flags and unlinking on packed 32-bit words decode to the machine's steps on decoded ones |
| RawWords.RawChain | src/xenbus/evtchn_fifo.c:300-347 | Over every interleaving, what waits in a queue is what following the link fields of the packed words visits, each with its LINKED bit set |
| EvtchnFifo.EvtchnFifoContext.EvtchnFifoUnlink | src/xenbus/evtchn_fifo.c:145-161 | The loop's effect is one unlink step of the machine at some state that others' steps lead to, and it returns that state's link |
| EvtchnFifo.EvtchnFifoContext.EvtchnFifoPollPriority | src/xenbus/evtchn_fifo.c:300-347 | The first port of the chosen queue comes off and nothing comes off the others; undisturbed, its callback is made if and only if its word was pending and not masked; the local ready bit goes just if the port was the last appended when it was unlinked |
| EvtchnFifo.EvtchnFifoContext.PollOnce | src/xenbus/evtchn_fifo.c:374-390 | The highest ready priority gives up its first port; afterwards no shared ready bit of the CPU is set, and the local bits are those of exactly the queues that hold ports |
| EvtchnFifo.EvtchnFifoContext.EvtchnFifoPoll | src/xenbus/evtchn_fifo.c:349-393 | With other agents at work it stops with all cached heads 0; what it took from each queue, followed by what is left, is what was there followed by what was appended meanwhile, and its callbacks are for ports it took, in order. With none it takes exactly the linked ports of each queue in order, leaves nothing linked, calls back for a port if and only if it was taken and its word was pending and not masked, and serves priorities in descending order of number |
| EvtchnFifo.DeliveredHas | src/xenbus/evtchn_fifo.c:333-337 | The callbacks due for the ports taken are for exactly those whose word is pending and not masked |
| EvtchnFifo.OnePass | src/xenbus/evtchn_fifo.c:300-347 | Reading a head, unlinking and storing the link, with any steps of others between, takes one port off one queue |
| EvtchnFifo.Drained | src/xenbus/evtchn_fifo.c:349-393 | With no poller at work and no ready bit set, nothing is linked on a CPU's queues |
| EventArray.WordPlaces | src/xenbus/evtchn_fifo.c:75-97 | Ports have their own words, and the pages hold the words of exactly the ports below their number times 1024 |
| EventArray.EvtchnFifoArray.EvtchnFifoEventWord | src/xenbus/evtchn_fifo.c:75-97 | The page is the one that the port's upper bits select, and the index in it its remainder modulo 1024 |
| EventArray.EvtchnFifoArray.EvtchnFifoExpand | src/xenbus/evtchn_fifo.c:163-258 | It succeeds just if there is room and every page works. Then the list reaches the port's page, each of the 1024 events of every new page is masked and neither pending, linked nor busy, and nothing else in memory changes; otherwise the guest's list and memory are as before. The hypervisor has the pages up to the first that does not work; it and the guest then agree just if all were added or none had been accepted |
| EvtchnMachine.StepKeepsCore | src/xenbus/evtchn.c:494-656 | Every step but the trigger of an overtaken close keeps the structure of lists, pending bits and closes under way |
| EvtchnMachine.RunKeeps | src/xenbus/evtchn.c:494-978 | Every interleaving of polls, flushes, triggers, binds and closes in which no close is overtaken keeps the invariant, also when channels are closed while pending |
| EvtchnMachine.FreedOnce | src/xenbus/evtchn.c:494-978 | In every such run from the start a channel is freed at most once, and not before its close is through |
| EvtchnMachine.SafeMarksOrderly | src/xenbus/evtchn.c:944-970 | Runs in which every channel is safe to mark when it is marked are such runs |
| EvtchnMachine.OneList | src/xenbus/evtchn.c:517-522 | A channel is on at most one pending list, at one position, not also on a flush's local list, and only while it is pending |
| EvtchnMachine.LocalList | src/xenbus/evtchn.c:595-602 | A flush's local list has no channel twice, and only pending, closed ones |
| EvtchnMachine.AtReap | src/xenbus/evtchn.c:634-654 | A channel about to be freed is on no list, in no table entry and not pending, its close has run to its end, and it has not been freed before |
| EvtchnMachine.FreedUntouched | src/xenbus/evtchn.c:450-492 | No step touches a channel after it is freed, so it is freed at most once |
| EvtchnMachine.KeptUntilReaped | src/xenbus/evtchn.c:948-969 | A closed channel is on its own CPU's list or in the hands of the flush until it is freed |
| EvtchnMachine.FlushFrees | src/xenbus/evtchn.c:610-656 | In any run, a channel closed before a flush of its CPU begins is freed by the time a flush ends |
| EvtchnMachine.FlushingAllFreesAll | src/xenbus/evtchn.c:1756-1765 | A run that flushes every CPU frees, once, every channel that was closed at its start |
| EvtchnMachine.MarkIsSafeIff | src/xenbus/evtchn.c:961-969 | No later run lets a flush free the channel ahead of its own close, other closes not being overtaken, if and only if the close runs on the channel's own CPU or, when it is marked closed, it is not listed and no poll has looked it up |
| EvtchnMachine.FreedIsQueued | src/xenbus/evtchn.c:961-969 | A concrete run on two CPUs: a triggered channel is closed by the other CPU, its own CPU's flush frees it, and the next step of the close puts the freed channel on a pending list |
| Evtchn.EvtchnContext.EvtchnPollCallback | src/xenbus/evtchn.c:494-526 | A channel found on its own CPU and not yet pending goes to the end of the list, whatever others do between the lookup and the test; with nobody else, nothing else changes |
| Evtchn.EvtchnContext.EvtchnPoll | src/xenbus/evtchn.c:528-608 | Between any steps of others: each entry of the list, which can only have grown at its end, is either called back, in order, or set aside in order for a flush, or kept in order. With nobody else, what the list grew by are the channels shown that were not pending, in the order in which they are first shown, and just the open entries are called back |
| Evtchn.QuietMeans | src/xenbus/evtchn.c:562-604 | What a poll with nobody else about does to every channel: an open one on the list may be queued again and has been delivered once more, a closed one stays as pending as it was and is set aside in a flush, and no other changes |
| Evtchn.PickHas | src/xenbus/evtchn.c:562-604 | What is delivered is exactly what was listed and open, and what is set aside or stays exactly what was listed and closed |
| Evtchn.ChosenHas | src/xenbus/evtchn.c:562-604 | The callbacks are for exactly the entries decided that way |
| Evtchn.ChosenAt | src/xenbus/evtchn.c:562-604 | They come in the order of the list, each entry decided that way once |
| Evtchn.GatheredAll | src/xenbus/evtchn.c:494-545 | Calling back for the ports shown adds to the list exactly the channels of this CPU that were not pending, each once, in the order in which their ports are first shown; those become pending, and nothing else changes |
| Evtchn.EvtchnContext.EvtchnFlush | src/xenbus/evtchn.c:610-656 | Between any steps of others, unless it comes to a channel whose close is not through: the steps since it began are a run of the machine in which no close is overtaken, the local list ends empty, and every channel of the CPU that was closed before is freed; open channels on the list are called back in order |
| Evtchn.EvtchnContext.EvtchnTrigger | src/xenbus/evtchn.c:691-732 | Just if it was not pending, the channel becomes pending, goes to the end of its CPU's list and is reported queued; no other channel or list changes |
| Evtchn.EvtchnContext.EvtchnClose | src/xenbus/evtchn.c:944-970 | Between any steps of others, its CPU's polls included: the channel ends closed, pending, on its CPU's list or with a flush, and out of the table; the invariant is kept. With nobody else it goes to the end of the list just if it was not pending, its port leaves the table, and no other channel or list changes |
| Slabs.CacheGetObjectFromSlab | src/xenbus/cache.c:512-568 | The first object that is not in use is found unless the slab is full or the constructor fails; the constructor runs just if all constructed objects are in use, and then for the next index |
| Slabs.NoneFullBehind | src/xenbus/cache.c:300-351 | In the order kept, no slab behind one that is not full is full |
| Slabs.LastIsEmptiest | src/xenbus/cache.c:764-785 | If the last slab in order has an object in use, all have |
| Slabs.InsertOrdered | src/xenbus/cache.c:300-351 | Inserting where the search ends keeps the order, and the cursor on the first slab that is not full |
| Slabs.TakeAtCursor | src/xenbus/cache.c:619-634 | Taking from the slab under the cursor keeps the order without moving it, and the cursor stays right by moving on just if it became full |
| SlabCache.CacheGetObjectFromMagazine | src/xenbus/cache.c:165-184 | The object in the first slot that holds one is taken out of it, or there is none |
| SlabCache.CachePutObjectToMagazine | src/xenbus/cache.c:186-202 | The object goes into the first empty slot, or there is none |
| SlabCache.TookConserves | src/xenbus/cache.c:512-568 | The objects in use remain the disjoint union of those held and those in magazines when one that was not in use is handed out |
| SlabCache.GaveConserves | src/xenbus/cache.c:571-586 | And when one is put back into its slab |
| SlabCache.KeptMeans | src/xenbus/cache.c:588-720 | What the cache keeps between operations: an object is in use just if a caller or a magazine slot holds it, not both, and has been constructed once more than destroyed just if its slab says it is constructed |
| SlabCache.InOrderMeans | src/xenbus/cache.c:354-390 | What the cache keeps about its list: occupancies descend, and the cursor is on the first slab that is not full, or past the end |
| SlabCache.Cache.CacheInsertSlab | src/xenbus/cache.c:300-351 | The slab goes before the first one less occupied and after all others, the list is in order, and the cursor on the first slab that is not full afterwards |
| SlabCache.Cache.CacheCreateSlab | src/xenbus/cache.c:397-466 | It succeeds just if there is memory and the cap is not passed, and then adds an empty slab at the end; the count is the sum of capacities |
| SlabCache.Cache.CacheGet | src/xenbus/cache.c:588-662 | If the caller's CPU's magazine holds an object, the first of them comes out of its slot and no other magazine or slab changes. Otherwise the magazines stay and the first slab that is not full, or a new one just if all are full, gives its first index not in use, which is constructed just if it has to be. Nobody held the object, and it fails just if none of these can give one |
| SlabCache.Cache.CachePut | src/xenbus/cache.c:664-720 | Exactly that object is no longer held. It goes into the first empty slot of the caller's CPU's magazine, no other changing, or if there is none its index is cleared in its slab, which goes before the first one less occupied |
| SlabCache.Cache.CacheDestroySlab | src/xenbus/cache.c:469-509 | The last slab goes, each object constructed in it is destroyed exactly once, and order and cursor are kept |
| SlabCache.Cache.CacheSpill | src/xenbus/cache.c:749-792 | Only empty slabs at the end go, the count never falls below the target, and if another slab could have gone no empty slab is left |
| SlabCache.Cache.CacheFill | src/xenbus/cache.c:722-747 | It succeeds just if the target is reached, adding only empty slabs and no more than needed; it falls short only for want of memory or because of the cap |
| SlabCache.Cache.CacheMonitorStep | src/xenbus/cache.c:1107-1119 | Below the reservation it adds empty slabs up to it and by less than a slab more, unless memory or the cap forbid; above it gives back empty slabs from the end, never to below the reservation or half, and leaves an empty slab only if giving it back would do that |
| SlabCache.Cache.CacheFlushMagazines | src/xenbus/cache.c:794-821 | All magazines are empty, and in every slab just the objects that callers hold are in use; what is constructed stays |
| SlabCache.Cache.CacheDestroy | src/xenbus/cache.c:972-1000 | With nothing held it leaves no slab, and over the cache's life every object has been destroyed exactly as often as constructed |
| SlabCache.NoneInUse | src/xenbus/cache.c:972-1000 | With nothing held and nothing in magazines no object of any slab is in use |
| SlabCache.AllUnmade | src/xenbus/cache.c:469-509 | With no slab left, the objects constructed and the objects destroyed are the same, each as often |
| CacheMask.Mask.CacheMaskSet | src/xenbus/cache.c:236-251 | The words with a bit set represent the set with the index added, and the count follows |
| CacheMask.Mask.CacheMaskTest | src/xenbus/cache.c:253-265 | The bit read says whether the index is in the set |
| CacheMask.Mask.CacheMaskClear | src/xenbus/cache.c:267-282 | The words with a bit cleared represent the set without the index |
| Geometry.P2RoundUpMultiple | src/common/util.h:41-42 | For 32-bit numbers the result is a multiple of the power of two, less than one step above the argument, unless it wraps to 0 |
| Geometry.P2RoundUpLeast | src/common/util.h:41-42 | It is the least multiple at or above the argument |
| Geometry.SlabIsFilled | src/xenbus/cache.c:408-414 | A slab has at least one object, and as many as fit in its pages |
| Geometry.ObjectsInSlab | src/xenbus/cache.c:545-547 | Objects lie inside the slab, clear of its header and of each other, and dividing an object's offset gives back its index |
| Geometry.AlignsToSlabIff | src/xenbus/cache.c:694-695 | Page-aligning any object's address gives its slab if and only if one object fits beside the header in a page or two do not fit in two pages |
| Geometry.SecondObjectStrays | src/xenbus/cache.c:694-695 | A size for which it does not |
| HeapSort.BalloonHeapPushDown | src/xenbus/balloon.c:91-154 | A heap below a node becomes a heap from the node on, the elements being permuted and the rest of the array left alone |
| HeapSort.RootIsMax | src/xenbus/balloon.c:178-184 | The root of a heap is its maximum |
| HeapSort.BalloonCreateHeap | src/xenbus/balloon.c:157-167 | The array becomes a heap and is permuted |
| HeapSort.BalloonSort | src/xenbus/balloon.c:169-191 | Any array comes out ascending and permuted, strictly ascending if its elements are distinct |
| Balloon.BalloonFreePages | src/xenbus/balloon.c:221-254 | The runs handed to the system expand to exactly the frames given, in order, and none could be longer |
| Balloon.BalloonContext.BalloonReleasePfnArray | src/xenbus/balloon.c:369-433 | Exactly the frames that could be put and that the hypervisor took are in the range set, whatever prefix it took; a frame that cannot be put for want of memory leaves the range set usable just if the set was empty or the frame lies between members |
| Balloon.BalloonContext.BalloonPopulatePfnArray | src/xenbus/balloon.c:306-367 | Exactly the frames the hypervisor populated leave the range set |
| Balloon.BalloonContext.BalloonDeflate | src/xenbus/balloon.c:495-542 | Frames are conserved; it gives back what its hypercalls did, batch after batch up to the first that was not done in full, and succeeds just if that is all that was asked |
| Balloon.DeflatedMeans | src/xenbus/balloon.c:510-535 | Batch by batch, what a deflation gives back, each asking for the rest or a full array; only the last can have been done in part, and if the request is not met it was |
| Balloon.BalloonContext.BalloonInflate | src/xenbus/balloon.c:544-609 | Frames are conserved; the batches are exactly those that the frames spared, the time taken and the hypercalls lead to; the size grows by what they released, and it succeeds or asks to retry, the latter just if some batch was short or slow |
| Balloon.ShortOrSlow | src/xenbus/balloon.c:571-605 | The request is never exceeded; not giving up means it was met; and when it was met the loop gave up just if its last batch was slow |
| Balloon.MetButRetried | src/xenbus/balloon.c:571-605 | One frame that takes two milliseconds to get: the request is met in full and still reported for retry |
| Balloon.BalloonContext.BalloonAdjust | src/xenbus/balloon.c:679-708 | The size moves towards the target without passing it, by exactly what one inflation or deflation achieves, and frames are conserved. Deflating succeeds just if it reaches the target. Inflating reports no memory just if that is low, and otherwise asks to retry just if its last batch was slow, short or released nothing, so that at the target it succeeds just if that batch was not slow |
| Balloon.PlanBatches | src/xenbus/balloon.c:571-605 | Whatever the system and the hypervisor do, each batch asks for the rest of the request or a full array, and only the last can have stopped the loop |
| Balloon.PlanMeans | src/xenbus/balloon.c:256-304 | Batch by batch, what an inflation gets: the least of the rest of the request, a full array, what the system spares and what there is; it is slow at under 1000 frames a second, and the size grows by what the hypercall took |
| Balloon.GaveUpMeans | src/xenbus/balloon.c:571-605 | Whether an inflation is to be retried depends on its last batch alone: none before it was slow or released nothing |
| RangeSet.RangeSetContext.Pop | src/xenbus/range_set.c:183-251 | The lowest interval of the length asked for that is wholly in the set leaves it, or there is none |
| RangeSet.RangeSetContext.Get | src/xenbus/range_set.c:324-421 | Exactly the interval leaves the set; it fails just if the interval is empty, or splits a range when there is no memory |
| RangeSet.RangeSetContext.Put | src/xenbus/range_set.c:507-566 | Exactly the interval joins the set if there is memory; if not the set is unchanged and the cursor is lost unless the interval lay between members |
| RangeSet.RangeSetContext.RangeSetAdd | src/xenbus/range_set.c:253-322 | The range is inserted beside the cursor and joined with the neighbours it touches |
| RangeSet.AddedKeeps | src/xenbus/range_set.c:253-322 | The list stays sorted and without ranges that touch, and its set gains exactly the range |
| RangeSet.CutKeeps | src/xenbus/range_set.c:324-421 | Cutting an interval out of a range takes exactly that interval out of the set |
| RangeSet.ShowsMeans | src/xenbus/range_set.c:183-566 | The list shows just the integers of the set, in ranges that are in order and do not touch |
| ModuleMap.SurvivorsMembers | src/xen/module.c:174-242 | The survivors of a load are exactly the modules that it does not overlap |
| ModuleMap.OverlapMeans | src/xen/module.c:174-225 | A module is displaced by a load just if some address lies in both |
| ModuleMap.ModuleContext.ModuleSearchForwards | src/xen/module.c:79-95 | The cursor stops at the first module that does not end before the address |
| ModuleMap.ModuleContext.ModuleSearchBackwards | src/xen/module.c:97-113 | The cursor stops at the nearest module that does not start after the address |
| ModuleMap.ModuleContext.ClearSpace | src/xen/module.c:174-225 | From any cursor, exactly the overlapping modules go and the place for the new one is found |
| ModuleMap.ModuleContext.ModuleAdd | src/xen/module.c:115-265 | The list stays sorted and disjoint, and is the survivors and the new module, with the cursor on it; what goes are exactly the modules that have an address in common with it; its name is stored in lower case, up to 256 characters |
| ModuleMap.LiveAfterLoad | src/xen/module.c:115-265 | After one more load the modules never displaced are those it does not overlap, and itself |
| ModuleMap.ModuleContext.ModuleLookup | src/xen/module.c:331-363 | It finds the load whose addresses, the last included, contain the one asked for and with which no later load has an address in common, with its name and the offset into it, and finds none just if there is none |
| Gnttab.SpaceGrows | src/xenbus/gnttab.c:161-163 | The references of a new frame are new, and all references of the frames are those of the frames before and those |
| Gnttab.AddEntry | src/xenbus/gnttab.c:291-326 | Free and constructed references stay a partition when an entry gets a free reference |
| Gnttab.DropEntry | src/xenbus/gnttab.c:328-345 | And when an entry gives its reference back |
| Gnttab.SlotWritten | src/xenbus/gnttab.c:533-540 | Every reference has its own slot: writing one changes what no other reference shows |
| Gnttab.SlotsMean | src/xenbus/gnttab.c:533-540 | A reference's slot is the one at its remainder modulo 512 in the frame of its quotient, and changing one leaves every other place of every frame as it is |
| Gnttab.GnttabContext.GnttabExpand | src/xenbus/gnttab.c:118-199 | Just if the maximum is not reached, a page of address space is had, the hypervisor maps the frame and the range set has memory, there is one more frame and its references are free; otherwise everything is as before |
| Gnttab.GnttabContext.GnttabEntryCtor | src/xenbus/gnttab.c:291-326 | The new entry has the least reference from 32 on that no entry had, from a new frame just if none was free; on failure nothing changes |
| Gnttab.GnttabContext.GnttabEntryDtor | src/xenbus/gnttab.c:328-345 | The entry's reference, and no other, becomes free |
| Gnttab.GnttabContext.GnttabContract | src/xenbus/gnttab.c:250-289 | With no entry left every frame's references can be taken out, without memory, and none are left |
| Gnttab.GnttabContext.GnttabPermitForeignAccess | src/xenbus/gnttab.c:499-548 | The entry's slot shows the domain, the page and the access, and no other slot changes |
| Gnttab.GnttabContext.GnttabRevokeForeignAccess | src/xenbus/gnttab.c:550-609 | On success the slot and the entry are clear; failure is reported just if the hundredth attempt is the first to succeed, so the report is right just if an earlier one does |
| Gnttab.GnttabContext.GnttabQueryReference | src/xenbus/gnttab.c:624-656 | The page and access that the reference's slot, of 512 in a frame, shows, for exactly the references of the frames |
| Gnttab.QueryRoundTrip | src/xenbus/gnttab.c:530-531 | The page queried is the page granted just if its number fits 32 bits |
| GrantMap.GnttabMapContext.GnttabMapForeignPages | src/xenbus/gnttab.c:658-739 | Page by page from the hole on, each reference is mapped under the handle it was given, and nothing else changes; or, on any failure, everything is as before |
| GrantMap.GnttabMapContext.GnttabUnmapForeignPages | src/xenbus/gnttab.c:741-792 | Exactly the pages of an earlier call are unmapped, and its hole is given back |
| GrantMap.EntryRemoved | src/xenbus/gnttab.c:741-792 | The table still describes every mapping there is |
| Console.PowersDivide | src/xenbus/console.c:147-151 | Every power of two below 2^32 is a ring size that wrapping does not disturb |
| Console.WrappedPlace | src/xenbus/console.c:147-147 | The place that a wrapped index selects is that of the whole count |
| Console.WrappedDifference | src/xenbus/console.c:187-190 | The difference of wrapped indices is the difference of the counts |
| Console.StoreHolds | src/xenbus/console.c:149-152 | A chunk stored after the bytes that are there, with room for it, touches none of them |
| Console.Ring.ConsoleOutAvailable | src/xenbus/console.c:97-116 | The room is the size less the bytes not yet read |
| Console.Ring.ConsoleInAvailable | src/xenbus/console.c:172-191 | The number of bytes not yet read |
| Console.Ring.ConsoleCopyToOut | src/xenbus/console.c:118-170 | Exactly as many bytes as fit are written, in order and each at the place that its index selects, and the index moves on by as many modulo 2^32, while the reader goes on reading; what is read is a prefix of what is written |
| Console.Ring.ConsoleCopyFromIn | src/xenbus/console.c:193-245 | Exactly as many bytes as there are, up to the limit, are read in order from the places that their indices select, and the index moves on by as many modulo 2^32, while the writer goes on writing |
| Registry.RegistryAnsiToMultiSz | src/common/registry.c:1484-1535 | It succeeds just if the encoding has less than 65536 bytes, fills its buffer exactly, and ends with its cursor on the last character |
| Registry.RegistryMultiSzToAnsi | src/common/registry.c:1021-1081 | The array holds the list that the buffer encodes, and its end mark |
| Registry.RoundTripIff | src/common/registry.c:1021-1081 | Decoding an encoded list gives the same list just if every string is non-empty and has no NUL |
| Registry.EncodingPlaces | src/common/registry.c:1484-1535 | Where each string of an encoded list is: one after the other from the start, with a NUL after each and one more at the end |
| Registry.EncodingSplit | src/common/registry.c:1484-1535 | Encoding a decoded list gives back the buffer as far as the end of its list |

## Left out

- Hypercall wrappers, registry access other than REG_MULTI_SZ, ACPI, CPUID, logging, the monitor service, driver entry and PnP: input and output without state of their own.
- src/xenbus/dma.c: it forwards to operations that are not part of this repository.
- Spin locks, IRQL and DPC scheduling: a critical section is one step, or belongs to the CPU whose lock it holds.
- Suspend and resume, and with them closing a channel that is not active (src/xenbus/evtchn.c:972-978).
- Opening a channel other than its entry in the port table, waiting on one, and EvtchnUnmask beyond its compare-and-exchange loop.
- Pointers and aliasing: slabs, modules, ranges, channels and grant entries are values in a sequence, with an index for a cursor and an identifier for an address, so an update of a list is an assignment to its field.
- Statistics (the Maximum fields) and checks made only in debug builds, among them CacheAudit and the balloon's checks of its array.
- The order of slabs between a flush of the magazines and the spill that follows it, and CacheCreate's exit when filling the reservation fails.
- Failure of the memory manager to take frames back (src/xenbus/balloon.c:243-250), and the balloon's FIST settings other than as two conditions given.
- Balloon.BalloonContext.BalloonInflate: what becomes of an inflation whose Put finds no memory, beyond what Balloon.BalloonContext.BalloonReleasePfnArray says of the range set.
- Evtchn.EvtchnContext.EvtchnFlush: what follows once it comes to a channel whose close is not through.
- EvtchnMachine.FreedIsQueued: what the code does with freed memory after that.
- CacheMask.Mask.CacheMaskSet: the slab code keeps sets of indices, which these masks refine one by one.
- RangeSet.RangeSetContext.Pop: the range set's dump, registration and teardown are not modelled.
- Registry.RegistryMultiSzToAnsi: strings of more than 32766 characters, which the system's counted strings cannot hold, and failure to allocate.
- Gnttab.GnttabContext.GnttabEntryCtor: several caches constructing entries at once, each with its own lock, are taken one after the other.
- Console.Ring.ConsoleCopyToOut: a peer that breaks the protocol, and the selection of a place by masking other than through Console.MaskIsRemainder.
- Geometry.SlabIsFilled: it rounds with division; Geometry.P2RoundUpLeast is the same rounding on 32-bit words.
- __strtok_r and __ffs: small loops without state that outlives a call.
