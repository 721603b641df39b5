# Verified models of the parallel and LCP-aware string sorters

This project models the hard algorithms of a collection of string sorters and proves them
correct: parallel super scalar string sample sort (pS5) with its LCP output and work sharing,
parallel block multikey quicksort, lazy funnelsort, LCP merging and LCP splitting, almost
in-place block distribution, cycle-leader distribution and flip-flop radix sort.

All of them share a small theory. A string is a pointer to a zero-terminated text; the address
tells equal texts apart, so stability can be stated. Order, exact longest common prefix (LCP) and
the 8-byte zero-padded keys are defined on texts, and key order is proved to be string order.

How the models are built:

- What the source updates in place is an array, a field of a class or a local variable here, and
  every such method is proved against a specification on sequences. Ghost parameters name the
  contents of an area before the call, ghost results name them afterwards.
- Concurrency is a choice among atomic steps. The schedule is a parameter, and the theorems hold
  for all schedules: what `has_idle()` answers to a job when it asks, and which of its child jobs
  other threads then run, with all their descendants. The parallel phases pick any job for the
  next round, and the completion tree is a state machine with all interleavings. Atomics are
  sequentially consistent.
- Random samples are arbitrary choices. The pivots of the parallel multikey quicksort are a
  parameter, a function of the strings and the depth of a step; the others are the median of nine
  that the source takes.
- `limit` and `size` in some contracts are ghost bounds on text length and area size. Every
  finite input has them; they only show that the recursion ends.

What the modules are about:

| modules | source |
|---|---|
| Strings, Cells, StableSort, Multiples, Areas, Wrappers | shared theory: texts, keys, runs of cells, stable order, joining finished areas |
| Partition, LcpInsertion, CachedInsertion, Stores, CacheSort | sequential building blocks on strings with cached keys and LCPs |
| Classifier, Steps, MakeSteps, SampleSteps, Counting | the classification tree and the sorting steps of pS5, their constructors, distribution and LCP calculation |
| Levels, Potential, Jobs, Cores, CleanCaches, Smallsort | pS5 jobs: two stacks, work sharing, child jobs, the whole sort |
| Once, Interleaving, Completion | the history of a job, in which every part and level is handled exactly once; jobs on disjoint areas commute; substep counters of the tree of sorting steps |
| Pieces, Desks, SharedCache, Shedding | sequential multikey quicksort job that sheds work |
| ParallelPartition, PivotChoices, ParallelMkqs | the parallel three-way block partition, the inputs and pivots it cannot handle, and the whole parallel sorter around it |
| FunnelLayout, Funnel, FunnelSort, FunnelDriver | buffer layouts, K-merger, funnelsort |
| LcpMerge, LcpSplitting | LCP mergesort, and LCP splitting of streams into merge jobs |
| Blocks, BlockSorts, CycleLeader, FlipFlop | almost in-place, in-place and ping-pong distribution, with the sorters around them |

## What the proofs found out about the code

- `mergesort_lcp_2way` calls `abort()` for exactly the sizes n with 126·2^j < n < 128·2^j for some
  j, the smallest being 127 (`LcpMerge.AbortCharacterised`, `LcpMerge.AbortsAt127`,
  `LcpMerge.Mergesort`). All other sizes are sorted stably.
- `fill_root` of funnelsort returns without output exactly when the left half of the streams is
  empty, that is when a level gets fewer strings than streams; there an `assert` of the source
  fails. Without assertions the sort is still right: the one non-empty stream was sorted through
  the same temporary array, which is what gets copied back (`FunnelDriver.MergeRuns`,
  `FunnelDriver.Funnelsort`). An input is 32 strings with K = 64
  (`FunnelDriver.ThirtyTwoInto64`).
- `partition_finished` of the parallel multikey quicksort sorts the equal strings eight
  characters deeper without looking at the pivot. The strings share those characters exactly if
  the low byte of the pivot is not zero (`ParallelPartition.EqualsGoDeeper`, with two empty
  strings as an input in `ParallelPartition.EmptyStringsDoNot`); the sequential job does look at
  it. A run reads behind a terminator exactly if one of its pivots has a zero low byte, and sorts
  otherwise (`ParallelMkqs.ParallelRoot`, `ParallelMkqs.ParallelMkqs`). Some choice of pivots does
  that exactly if, for some k, a string ends less than eight characters after the first 8k of the
  sort depth and agrees up to there with more than threshold strings, itself among them; for k = 0
  the string alone is enough (`PivotChoices.ReadsExactly`, `PivotChoices.ReadsBySome`). Two strings
  of eight or more characters that differ within the first eight are never such an input
  (`PivotChoices.TwoApart`).
- A merge job that shares its rest splits it at `nextBaseLcp`. Its strings share that many
  characters exactly if the last byte of their common key is not zero (`LcpSplitting.NextBaseLcp`,
  with an empty string as an input in `LcpSplitting.EmptyStringsEndBefore`).

## Model

| member | source | states |
|---|---|---|
| Strings.LcpMin | src/rantala/mergesort_lcp.cpp:163-183 | for sorted a, b, c the LCP of a and c is the smaller of the two neighbouring LCPs, and the order of the outer two is strict if an inner one is |
| Strings.LongerLcpFirst | src/rantala/mergesort_lcp.cpp:161-172 | of two strings after a common predecessor, the one with the longer LCP with it is strictly smaller, and their own LCP is the shorter one: no character is compared |
| Strings.KeyOrder | src/parallel/bingmann-parallel_sample_sort.hpp:225-231 | for strings sharing d characters, integer order of the zero-padded keys is string order, `lcpKeyType` plus d is their exact LCP, and equal keys mean d + w common characters or equal texts, in both directions |
| Strings.KeyDepthExact | src/parallel/bingmann-parallel_sample_sort.hpp:233-238 | `lcpKeyDepth` of a key with a zero low byte gives the exact length of the text |
| StableSort.MergeStableSorted | src/rantala/mergesort_lcp.cpp:128-206 | the left-biased merge of two sorted runs is a stable sort of their concatenation |
| StableSort.Compare | src/rantala/mergesort_lcp.cpp:83-110 | starting at a depth that both strings share, the scan returns the exact LCP and a sign that is at most 0 exactly if the first string is not larger |
| StableSort.InsertionSort | src/parallel/bingmann-parallel_mkqs.hpp:187-210 | the area ends as a stable sort of its strings, cells outside are untouched |
| LcpMerge.Decide | src/rantala/mergesort_lcp.cpp:151-190 | with lcp0 and lcp1 the LCPs of the last output with the two heads, a strict comparison of them decides the order of the heads and gives their LCP; if they are equal, the heads share that many characters, so a comparison may start there |
| LcpMerge.MergeLcp2way | src/rantala/mergesort_lcp.cpp:128-206 | two non-empty sorted runs with exact LCPs become exactly their left-biased stable merge with exact adjacent LCPs; nothing outside the output range changes |
| LcpMerge.JoinHalves | src/rantala/mergesort_lcp.cpp:233-256 | aborts exactly if the left half lies in the temporary array and the right half in place; otherwise the merge of both halves with exact LCPs lies in the other array than the left half did |
| LcpMerge.AbortCharacterised | src/rantala/mergesort_lcp.cpp:225-244 | some merge step of the recursion on n strings hits the abort branch exactly if 126·2^j < n < 128·2^j for some j |
| LcpMerge.AbortsAt127 | src/rantala/mergesort_lcp.cpp:225-244 | 127 strings abort, 128 do not, and no smaller number does |
| LcpMerge.MergesortLcp2way | src/rantala/mergesort_lcp.cpp:208-257 | aborts exactly for those sizes; otherwise a stable sort with exact LCPs lies in the temporary array exactly if the number of halvings of n until below 32 is odd, else in place |
| LcpMerge.Mergesort | src/rantala/mergesort_lcp.cpp:259-273 | for every non-empty input: aborts exactly in a size window, and otherwise leaves a stable sort of the input in the array |
| Blocks.Lead | src/rantala/msd_dyn_block.hpp:88-130 | while strings are distributed, no handed-out block reaches beyond the next string to be read, the free list is not empty and the next free block does not reach beyond it either, whatever the characters |
| Blocks.DistributeOne | src/rantala/msd_dyn_block.hpp:102-116 | one string appended to its bucket keeps the whole invariant of the distribution: bucket contents, block ownership, backlinks, and unread strings untouched |
| Blocks.Distribute | src/rantala/msd_dyn_block.hpp:88-130 | after all strings, the bucket lists hold exactly the strings of each bucket in input order |
| Blocks.FreshBlock | src/rantala/msd_dyn_block.hpp:159-161 | whenever a block has to be moved, the free list has a non-stale block, so the loop that looks for one ends |
| Blocks.OneOverlap | src/rantala/msd_dyn_block.hpp:142-143 | the items that are written next overlap the start of at most the block `block_overlap` |
| Blocks.EvacuateStep | src/rantala/msd_dyn_block.hpp:152-169 | moving the overlapped block to a non-stale free one keeps the invariant, copies between disjoint ranges, finds the backlink of the target empty, and clears the cells to be written next |
| Blocks.InPlaceStep | src/rantala/msd_dyn_block.hpp:145-150 | a block that is already at its place is skipped with the invariant kept |
| Blocks.MoveStep | src/rantala/msd_dyn_block.hpp:171-187 | source and destination of the block copy are disjoint, and copying and freeing the block extends the finished prefix with the invariant kept |
| Blocks.GatherOne | src/rantala/msd_dyn_block.hpp:140-188 | one round of the redistribution takes the state of list element j to that of element j + 1 |
| Blocks.Redistribute | src/rantala/msd_dyn_block.hpp:132-189 | from any legal state after the distribution the array ends as the buckets one after the other |
| Blocks.BucketSort | src/rantala/msd_dyn_block.hpp:88-189 | distribution and redistribution together leave the array as the stable bucket sort of the input, for any bucket function below K and any fitting block layout |
| Blocks.GatherIsPermutation | src/rantala/msd_dyn_block.hpp:132-189 | the concatenation of all buckets is a permutation of the input |
| Blocks.GatherOrdered | src/rantala/msd_dyn_block.hpp:132-189 | bucket numbers never decrease along the concatenation of the buckets |
| Blocks.MsdDistribute | src/rantala/msd_dyn_block.hpp:70-189 | `msd_D<1024>` for n ≥ 0x10000: with 256 + 6 spare blocks the array ends stably sorted by the character at depth |
| Blocks.MultikeyDistribute | src/rantala/multikey_block.cpp:72-190 | `multikey_block<1024>` for n ≥ 10000: with 32 spare blocks the array ends stably split into smaller, equal and larger keys |
| BlockSorts.PartSorted | src/rantala/msd_dyn_block.hpp:192-197 | after the distribution, sorting the next bucket extends the sorted prefix of the array by exactly that bucket |
| BlockSorts.MsdD | src/rantala/msd_dyn_block.hpp:68-198 | the whole recursive sort leaves a sorted permutation of the area and touches nothing outside |
| BlockSorts.EqualSide | src/rantala/multikey_block.cpp:193-196 | the strings equal to the pivot share w more characters if the pivot's last byte is not zero, and are in order already if it is |
| BlockSorts.MultikeyBlock | src/rantala/multikey_block.cpp:70-199 | the whole recursive sort, for any word size and any pivot that is the word of a string, leaves a sorted permutation of the area and touches nothing outside |
| Counting.SlotsDistinct | src/parallel/bingmann-parallel_sample_sort.hpp:1437-1487 | the slots that the counters assign are distinct and below n, for any number of parts and any bucket ids |
| Counting.CounterStep | src/parallel/bingmann-parallel_sample_sort.hpp:1478-1484 | decrementing the counter of its bucket gives a string its slot and changes no other counter |
| Counting.CounterFinal | src/parallel/bingmann-parallel_sample_sort.hpp:1494-1500 | the counters of part 0 end as the exclusive prefix sums of the bucket sizes |
| Counting.PartsCover | src/parallel/bingmann-parallel_sample_sort.hpp:1366-1370 | parts of size ceil(n / parts) cover all strings |
| Counting.PrefixSum | src/parallel/bingmann-parallel_sample_sort.hpp:1437-1462 | one bucket-major, part-minor pass turns part sizes into inclusive prefix sums |
| Counting.DistributeOne | src/parallel/bingmann-parallel_sample_sort.hpp:1464-1487 | a round of any distribute job writes a slot that no other round of any job has written and keeps the invariant of the distribution |
| Counting.RunDistributeJobs | src/parallel/bingmann-parallel_sample_sort.hpp:1464-1505 | for every interleaving of the distribute jobs the result is a permutation with contiguous buckets whose boundaries are left in the counters of part 0 |
| Counting.Distribute | src/parallel/bingmann-parallel_radix_sort.hpp:519-629 | count, prefix sum and distribute jobs together: a permutation of the area, bucket by bucket, with exact boundaries, nothing else written |
| Counting.BucketExact | src/parallel/bingmann-parallel_sample_sort.hpp:1464-1505 | every string between the boundaries of bucket c was classified c |
| Partition.Med3 | src/parallel/bingmann-parallel_sample_sort.hpp:766-781 | the returned index holds a median of the three keys |
| Partition.PartitionLoop | src/parallel/bingmann-parallel_sample_sort.hpp:905-957 | the loop ends with equal keys at both ends, smaller and larger ones between, a permutation, and max_lt and min_gt attained and extreme |
| Partition.Center | src/parallel/bingmann-parallel_sample_sort.hpp:959-986 | swapping the equal keys to the center gives the three parts in order with strings and keys kept together |
| Partition.PartitionStep | src/rantala/multikey_cache.cpp:136-205 | the pivot is the median of nine keys; partition: a permutation into smaller, equal and larger keys with exact sizes, at least one equal, and exact extreme keys |
| LcpInsertion.HoleStep | src/sequential/bingmann-lcp_inssort.hpp:61-105 | the LCP of the string below the hole with the one above decides whether the new string passes it, stays, or has to be compared, and gives the LCPs that change |
| LcpInsertion.LcpInsertionSort | src/sequential/bingmann-lcp_inssort.hpp:37-150 | stable sort with exact LCP entries 1 to n - 1; entry 0 and everything outside the area is untouched |
| CachedInsertion.GroupBoundary | src/parallel/bingmann-parallel_sample_sort.hpp:823-829 | the LCP between two groups of equal keys is computed from the two keys alone and is exact |
| CachedInsertion.SameKeysDeeper | src/parallel/bingmann-parallel_sample_sort.hpp:831-836 | equal keys without a terminator: eight more common characters |
| CachedInsertion.SameKeysFinished | src/parallel/bingmann-parallel_sample_sort.hpp:837-840 | equal keys with a terminator: equal texts of the length that `lcpKeyDepth` gives |
| CachedInsertion.InsertionSortCache | src/parallel/bingmann-parallel_sample_sort.hpp:783-861 | copied back, sorted, with exact LCPs inside the area and entry 0 untouched, for dirty and clean caches |
| Steps.MkqsLcp | src/parallel/bingmann-parallel_sample_sort.hpp:1012-1050 | given sorted parts, exactly the boundary entries of the parts are written, and they are exact |
| Steps.FirstBucket | src/parallel/bingmann-parallel_sample_sort.hpp:311-349 | the first loop ends at the first non-empty bucket with its largest key, or at the end if there is none |
| Steps.WriteBoundary | src/parallel/bingmann-parallel_sample_sort.hpp:351-392 | at a non-empty bucket the LCP computed from the last key before it and its first key is exact, and its last key is remembered |
| Steps.SampleSortLcp | src/parallel/bingmann-parallel_sample_sort.hpp:311-396 | the parity walk writes the exact LCP at the start of every non-empty bucket but the first, writes nothing else, and stays within the buckets |
| Steps.CalculateLcp | src/parallel/bingmann-parallel_sample_sort.hpp:512-517 | completes the LCPs of a step whose sub-areas are finished, without disturbing them or anything outside |
| MakeSteps.MakeMkqsStep | src/parallel/bingmann-parallel_sample_sort.hpp:863-1010 | the constructed step describes its three parts: where they lie, common prefixes or equal texts, key bounds; outer parts keep clean cached keys |
| Classifier.LowerBoundExact | src/sequential/bingmann-sample_sortBTC.hpp:46-70 | for sorted splitters, all splitters before the returned index are smaller than the key and none from there on is |
| Classifier.TreeBuilder.Recurse | src/sequential/bingmann-sample_sort_tree_builder.hpp:112-184 | building a subtree from a range of a sorted sample, empty ranges included, takes the middle sample and goes on beyond the samples equal to it on both sides, reads no sample outside the range, writes its splitters in order, each with its LCP with the one before it, and its nodes at their places, and nothing else |
| Classifier.ClassifyTree.Build | src/sequential/bingmann-sample_sort_tree_builder.hpp:84-105 | the splitters are sorted keys of the sample, the level-order array is a search tree over them, and `splitter_lcp` is exact with the sentinels at both ends |
| Classifier.DescentStep | src/sequential/bingmann-sample_sortBTC.hpp:52-70 | one comparison keeps the invariant of the descent, which ends below the tree with the number of smaller splitters |
| Classifier.ClassifyTree.Find | src/sequential/bingmann-sample_sortBTC.hpp:45-72 | the descent without equality tests returns the bucket of the key |
| SampleSteps.FindBktExact | src/sequential/bingmann-sample_sortBTC.hpp:46-70 | the bucket that `find_bkt` returns fits the key: bucket 2k lies strictly between splitters k - 1 and k, bucket 2k + 1 equals splitter k, also when splitters are equal |
| SampleSteps.SplitterLcpExact | src/sequential/bingmann-sample_sort_tree_builder.hpp:149-181 | on strings: `splitter_lcp[k] & 0x7F` is the exact LCP beyond depth of the strings of neighbouring splitters, 8 for equal ones and 0 at both ends; `0x80` is set exactly if the strings of splitter k end within their key |
| SampleSteps.EvenBucketShares | src/sequential/bingmann-sample_sort_tree_builder.hpp:85-165 | `splitter_lcp[k] & 0x7F` is a common prefix of all strings in bucket 2k |
| SampleSteps.MakeSampleStep | src/parallel/bingmann-parallel_sample_sort.hpp:431-510 | sampling, building the classifier, classification and distribution: the buckets lie in order in the other array, each with the depth or the equal texts that its number promises, with the exact splitter LCPs, and no area repeats forever |
| Areas.Combine | src/parallel/bingmann-parallel_sample_sort.hpp:311-396 | finished parts and exact boundary entries make a finished step: sorted, with exact LCPs |
| Levels.PartsApart | src/parallel/bingmann-parallel_sample_sort.hpp:565-755 | two sub-areas on any levels of the stacks that no deeper level is working on do not overlap |
| Levels.PartSplit | src/parallel/bingmann-parallel_sample_sort.hpp:651-660 | pushing a step for the next part keeps every other sub-area as it was and the new one's parts waiting inside it |
| Levels.LevelFinished | src/parallel/bingmann-parallel_sample_sort.hpp:662-669 | a level with finished parts and calculated LCPs is a finished part of the level below |
| Levels.LevelFreed | src/parallel/bingmann-parallel_sample_sort.hpp:678-755 | giving a level away turns exactly its parts that have not been started into child jobs |
| Levels.ChildFinished | src/parallel/bingmann-parallel_sample_sort.hpp:1238-1258 | a child job that finishes, at any moment, disturbs no other sub-area of any level |
| Jobs.StaticFree | src/parallel/bingmann-parallel_sample_sort.hpp:678-755 | after the lowest live level was given away, stacks, levels and jobs still agree, and the level is never given away again |
| Jobs.PartFacts | src/parallel/bingmann-parallel_sample_sort.hpp:1056-1178 | the fields of a step give place, size and depth of each part, and a part that is sorted further is smaller in remaining characters or size |
| Cores.CoreSorted | src/parallel/bingmann-parallel_sample_sort.hpp:590-650 | sorting the next part on the spot keeps the invariant of the job |
| Cores.TopDone | src/parallel/bingmann-parallel_sample_sort.hpp:1238-1258 | when a level is left, live or given away, all its sub-areas are finished, so its LCP calculation is justified |
| Cores.CoreFinished | src/parallel/bingmann-parallel_sample_sort.hpp:662-669 | after its LCP calculation a level is left for good, and the invariant holds for the levels below |
| Cores.CoreFree | src/parallel/bingmann-parallel_sample_sort.hpp:1180-1235 | giving away the lowest live level at any moment keeps the invariant, with its waiting parts pending |
| Cores.CoreJobDone | src/parallel/bingmann-parallel_sample_sort.hpp:214-219 | a finished child job keeps the invariant of its parent |
| Cores.JobReady | src/parallel/bingmann-parallel_sample_sort.hpp:1198-1230 | a queued child job finds its strings untouched at its place with the promised common prefix, and is smaller than its parent |
| Cores.CoreEmpty | src/parallel/bingmann-parallel_sample_sort.hpp:1238-1258 | with no level and no job left, the job's area is sorted with exact LCPs and nothing else has changed |
| Potential.FreeLowers | src/parallel/bingmann-parallel_sample_sort.hpp:1180-1235 | giving levels away never raises the bound on the rounds that are left |
| Potential.PushPays | src/parallel/bingmann-parallel_sample_sort.hpp:1056-1178 | starting a part pays for all rounds of the step that sorts it |
| CleanCaches.CleanKept | src/parallel/bingmann-parallel_sample_sort.hpp:1056-1178 | sorting one part leaves the cached keys of all waiting smaller and larger parts clean |
| Smallsort.SmallsortJob.SampleFreeWork | src/parallel/bingmann-parallel_sample_sort.hpp:678-755 | gives away exactly the lowest live sample sort level, or the eight lowest MKQS levels (all, if fewer) when there is none; exactly the parts of them that are not started, not empty and not finished become jobs, with the right area and depth; all other jobs stay, and the job's invariant is kept |
| Smallsort.SmallsortJob.MkqsFreeWork | src/parallel/bingmann-parallel_sample_sort.hpp:1180-1235 | gives away exactly the eight lowest MKQS levels, or all if there are fewer, with the same statement about parts and jobs |
| Smallsort.SmallsortJob.Interlude | src/parallel/bingmann-parallel_sample_sort.hpp:669-675 | after a yes of `has_idle` levels are given away as above, after a no none is; then exactly the child jobs that the schedule names have run |
| Smallsort.SmallsortJob.FreePart | src/parallel/bingmann-parallel_sample_sort.hpp:1198-1231 | one waiting part of a level being given away becomes exactly one job or is finished, and the counter stays equal to the jobs |
| Smallsort.SmallsortJob.SortMkqsCache | src/parallel/bingmann-parallel_sample_sort.hpp:1056-1178 | entered only with an empty MKQS stack and `ms_pop_front == 0`; ends with the area finished or all levels given away, the sample sort stack untouched |
| Smallsort.SmallsortJob.SortSampleSort | src/parallel/bingmann-parallel_sample_sort.hpp:565-676 | runs until all levels are left or given away, with the job's invariant kept; `has_idle` is asked once after every round of both loops, and every yes gives away one to eight levels, but for at most two when nothing was left |
| Smallsort.SmallsortJob.Run | src/parallel/bingmann-parallel_sample_sort.hpp:528-563 | for every schedule: the job is complete, or settled with one substep per child job that is left, and its history is a run of events that ends in this state; if no thread was ever idle, it is complete; below the small-sort threshold it makes no sample sort step, from there on one is given away when threads ask twice |
| Smallsort.SmallsortJob.NotifyDone | src/parallel/bingmann-parallel_sample_sort.hpp:214-219 | the counter never underflows, and reaching zero completes the job, once |
| Smallsort.SmallsortJob.SubstepAllDone | src/parallel/bingmann-parallel_sample_sort.hpp:1238-1258 | calculating the LCPs of all given-away levels top down completes the area: sorted, exact LCPs, nothing outside changed, and every part and level handled exactly once |
| Smallsort.SmallsortJob.Drain | src/parallel/bingmann-parallel_sample_sort.hpp:1238-1258 | whatever the order of the remaining child jobs, the job ends complete: the area is done, and its history finishes every part of every level once and calculates every level's LCPs once |
| Smallsort.SampleSortStep.DistributeFinished | src/parallel/bingmann-parallel_sample_sort.hpp:1492-1580 | exactly the buckets of two or more strings without a terminator in their splitter become jobs, with the right depth; while some of them already run, the step's anonymous handle keeps it alive |
| Smallsort.SampleSortStep.SubstepAllDone | src/parallel/bingmann-parallel_sample_sort.hpp:1588-1600 | with all buckets finished, the bucket boundaries complete the area |
| Smallsort.Enqueue | src/parallel/bingmann-parallel_sample_sort.hpp:1612-1640 | an area above the sequential threshold gets a parallel step, any other a sequential job; with all its descendants it leaves its area sorted with exact LCPs, entry 0 untouched, and nothing else changed |
| Smallsort.ParallelSampleSort | src/parallel/bingmann-parallel_sample_sort.hpp:1643-1686 | for every schedule, sample and job tree: the whole array is a sorted permutation of the input with exact LCP entries from 1 on, and entry 0 is untouched |
| Once.LeaveInv | src/parallel/bingmann-parallel_sample_sort.hpp:1238-1258 | when the LCPs of a level are calculated, they have not been before, and every part of the level has been finished exactly once |
| Once.AtMostOnce | src/parallel/bingmann-parallel_sample_sort.hpp:565-755 | in every run of a job's events, whatever is given away when, no part of a live level has been finished twice and its LCPs have not been calculated |
| Once.ExactlyOnce | src/parallel/bingmann-parallel_sample_sort.hpp:1056-1258 | when a run ends with only the bottom level left, every part of every level that was ever made has been finished exactly once, and the LCPs of every level have been calculated exactly once |
| Once.TrackLeave | src/parallel/bingmann-parallel_sample_sort.hpp:662-669 | when the job leaves a level this event can happen, and the history that records it ends with the job's new levels |
| Once.TrackFree | src/parallel/bingmann-parallel_sample_sort.hpp:1180-1235 | the same for giving the lowest live level away, with the parts that wait to become jobs |
| Once.TrackEnd | src/parallel/bingmann-parallel_sample_sort.hpp:1238-1258 | with no level and no job left, the history has finished the whole area and every part of every level once, and calculated every level's LCPs once |
| Interleaving.Atomic | src/parallel/bingmann-parallel_sample_sort.hpp:528-563 | from any run of steps that are local to disjoint areas, the steps of one job can be moved to the front without changing the final memory |
| Interleaving.OneAfterTheOther | src/parallel/bingmann-parallel_sample_sort.hpp:1643-1686 | whatever memory an interleaving of jobs on disjoint areas reaches is reached by running the jobs one after the other |
| Interleaving.StepInterleaved | src/parallel/bingmann-parallel_sample_sort.hpp:528-563 | if the steps of each sub-area's job sort it when nothing comes between them, every interleaving of the jobs of a step leaves all its sub-areas finished |
| Interleaving.EffectLocal | src/parallel/bingmann-parallel_sample_sort.hpp:1612-1640 | what a job promises with all its descendants is local to its area: it depends on and changes nothing outside |
| Completion.ReleaseInv | src/parallel/bingmann-parallel_sample_sort.hpp:556-560 | releasing a job's own handle keeps all counters exact and finds the counter above zero |
| Completion.AllDoneInv | src/parallel/bingmann-parallel_sample_sort.hpp:1238-1258 | `substep_all_done` runs for the first time, and every registered sub-step has run its own before |
| Completion.NotifyInv | src/parallel/bingmann-parallel_sample_sort.hpp:1256-1258 | the parent is still there when notified, and its counter is above zero |
| Completion.RunSafe | src/parallel/bingmann-parallel_sample_sort.hpp:189-220 | in every state of every run no counter is negative, `substep_all_done` of a step has run at most once, and after it no sub-step is left |
| Completion.RootLast | src/parallel/bingmann-parallel_sample_sort.hpp:1506-1600 | once the root has finished, every other step is gone and has run its `substep_all_done` once |
| Completion.QuiescentIsComplete | src/parallel/bingmann-parallel_sample_sort.hpp:189-220 | until the root has finished some step can move; when it has, every `substep_all_done` has run exactly once |
| Completion.SpawnPossible | src/parallel/bingmann-parallel_sample_sort.hpp:207-210 | in every state of every run, a running job can register a sub-step of any new name, with exactly the effect of `substep_add` on the counters |
| Completion.MovesPossible | src/parallel/bingmann-parallel_sample_sort.hpp:189-220 | in every state of every run, each step that is not waiting can make its next move, and `substep_all_done` is due exactly if its handle was the last |
| Completion.NotifyPossible | src/parallel/bingmann-parallel_sample_sort.hpp:1256-1258 | a finished step can always notify its parent, whose `substep_all_done` is due exactly if it was the last |
| Completion.EveryTree | src/parallel/bingmann-parallel_sample_sort.hpp:189-220 | for every finite tree of steps some run registers exactly that tree and ends with the root finished and every `substep_all_done` run once |
| Pieces.Refine | src/parallel/bingmann-parallel_mkqs.hpp:598-645 | replacing one unsorted piece by smaller ones in order keeps all strings of different pieces in order |
| Desks.NextIsFirst | src/parallel/bingmann-parallel_mkqs.hpp:598-645 | the part that is started next is the leftmost one that waits on any live level |
| Desks.FreeGiven | src/parallel/bingmann-parallel_mkqs.hpp:512-596 | after giving the lowest level away, exactly the area from the new `cache_finished` on belongs to jobs or is written |
| Desks.FreeSides | src/parallel/bingmann-parallel_mkqs.hpp:582-591 | a waiting part was either given away, at or behind the new `cache_finished`, or still waits in front of it |
| SharedCache.FreeWork | src/parallel/bingmann-parallel_mkqs.hpp:512-596 | giving away keeps the whole invariant, with `cache_finished` the end of the new lowest live level |
| SharedCache.ChildWork | src/parallel/bingmann-parallel_mkqs.hpp:410-475 | a child job's result on the shared cache and output keeps its parent's invariant |
| SharedCache.FinishedPrefix | src/parallel/bingmann-parallel_mkqs.hpp:648-659 | with the stack empty or given away, the strings in front of `cache_finished` are sorted in the cache |
| SharedCache.BehindFinished | src/parallel/bingmann-parallel_mkqs.hpp:648-659 | every position from `cache_finished` on is written out or belongs to a job that was given away |
| SharedCache.AllWritten | src/parallel/bingmann-parallel_mkqs.hpp:648-659 | when all jobs are done the output area is a sorted permutation |
| CacheSort.SortCache | src/parallel/bingmann-parallel_mkqs.hpp:228-263 | `insertion_sort<CacheDirty>` leaves a sorted permutation in the cache, with or without clean keys |
| Shedding.SequentialJob.FreeFront | src/parallel/bingmann-parallel_mkqs.hpp:512-596 | exactly the lowest live level is given away, exactly its parts that are not started become jobs, equal texts are written at once, and `cache_finished` moves to the first of them |
| Shedding.SequentialJob.SequentialMkqs | src/parallel/bingmann-parallel_mkqs.hpp:477-660 | for every schedule: complete at once, or the prefix is copied and everything behind it was given away; one level was given away for every yes of `has_idle` and one part started after every no |
| Shedding.SequentialJob.Turn | src/parallel/bingmann-parallel_mkqs.hpp:507-615 | a yes of `has_idle` gives the lowest level away, a no starts the next part; exactly the child jobs that the schedule names have run before |
| Shedding.SequentialJob.CopyFinished | src/parallel/bingmann-parallel_mkqs.hpp:648-659 | the copied prefix is sorted |
| Shedding.RunJob | src/parallel/bingmann-parallel_mkqs.hpp:382-660 | a job with all its descendants writes a sorted permutation of its strings to its output area and touches nothing else |
| ParallelPartition.InputBlocksExact | src/parallel/bingmann-parallel_mkqs.hpp:680-739 | the blocks of the input source are not empty, fit, and hold every string exactly once |
| ParallelPartition.InputBlockCount | src/parallel/bingmann-parallel_mkqs.hpp:680-686 | their number is n / block_size rounded up |
| ParallelPartition.HasSourceOk | src/parallel/bingmann-parallel_mkqs.hpp:1247-1274 | fetching a block loses nothing, pushes only a fully checked block, and fails only when the source is exhausted |
| ParallelPartition.SwapOrMoveOk | src/parallel/bingmann-parallel_mkqs.hpp:1305-1335 | moving a string to its type's block keeps all entries and purity and takes one unchecked cell away |
| ParallelPartition.LookAtGtOk | src/parallel/bingmann-parallel_mkqs.hpp:1062-1103 | each exchange of the second inner loop keeps all blocks pure and all entries, and checks one more cell |
| ParallelPartition.AllActed | src/parallel/bingmann-parallel_mkqs.hpp:1020-1123 | any action of any job keeps the invariant of all jobs, loses no entry, and lowers the work that is left |
| ParallelPartition.EveryRun | src/parallel/bingmann-parallel_mkqs.hpp:1020-1123 | at any time of any interleaving every job that is not done can act, every action has lowered the work that is left, and when all jobs are done the partition is right |
| ParallelPartition.RunPartition | src/parallel/bingmann-parallel_mkqs.hpp:1020-1123 | for any pivot, number of jobs and interleaving: ends, the pushed blocks hold exactly the input, all are pure and not empty, and `count_lt` and `count_eq` are exact |
| ParallelPartition.EqualsGoDeeper | src/parallel/bingmann-parallel_mkqs.hpp:1187-1205 | the equal strings share eight more characters exactly if the low byte of the pivot is not zero |
| ParallelPartition.EmptyStringsDoNot | src/parallel/bingmann-parallel_mkqs.hpp:1187-1205 | two empty strings at depth 0 have the pivot 0 and do not share eight characters |
| ParallelMkqs.ReadBlocks | src/parallel/bingmann-parallel_mkqs.hpp:707-739 | the blocks that are read from the input hold exactly its strings with their keys |
| ParallelMkqs.StrsOfSides | src/parallel/bingmann-parallel_mkqs.hpp:1125-1205 | the strings of the three queues of a partition together are those of its source, with valid cached keys |
| ParallelMkqs.QueueIsSide | src/parallel/bingmann-parallel_mkqs.hpp:1125-1205 | the queue of each type holds, as a multiset, exactly the strings of the source on that side of the pivot |
| ParallelMkqs.SequentialFromQueue | src/parallel/bingmann-parallel_mkqs.hpp:410-475 | a sequential job on a queue of blocks writes a sorted permutation of their strings to its output area |
| ParallelMkqs.StepReads | src/parallel/bingmann-parallel_mkqs.hpp:1125-1232 | with the pivots of a run, a step reads behind a terminator exactly if its own pivot has a zero low byte or a job for more than threshold strings on one of its sides does |
| ParallelMkqs.ParallelJob | src/parallel/bingmann-parallel_mkqs.hpp:1020-1232 | a parallel job on one string or more, with all its descendants and the pivots of this run: it reads behind a terminator exactly if one of these pivots has a zero low byte, and otherwise writes a sorted permutation of its strings to its output area |
| ParallelMkqs.ParallelRoot | src/parallel/bingmann-parallel_mkqs.hpp:1412-1431 | the root job on any number of strings from one on, for every schedule and all pivots: a sorted permutation of the area, unless one of the pivots of this run has a zero low byte; nothing outside changes |
| ParallelMkqs.ParallelMkqs | src/parallel/bingmann-parallel_mkqs.hpp:1433-1465 | the same with a sequential job for up to threshold strings, which always sorts |
| PivotChoices.ReadsExactly | src/parallel/bingmann-parallel_mkqs.hpp:1125-1232 | some choice of pivots reads behind a terminator exactly if for some k a string ends less than eight characters after the first 8k from the start depth and agrees up to there with more than threshold strings, itself included, or k is 0 |
| PivotChoices.ReadsBySome | src/parallel/bingmann-parallel_mkqs.hpp:1125-1232 | some choice of pivots reads behind a terminator exactly if the pivots of some run do |
| PivotChoices.TwoApart | src/parallel/bingmann-parallel_mkqs.hpp:1187-1205 | for two strings of eight or more characters that differ within the first eight no choice of pivots does |
| FunnelLayout.RootIsTotal | src/rantala/funnelsort.cpp:144-162 | `subtree_size` of the root is `buffer_total_size`, for any K and any buffer sizes |
| FunnelLayout.DfsDisjoint | src/rantala/funnelsort.cpp:190-196 | all buffers of the DFS layout are pairwise disjoint |
| FunnelLayout.DfsInside | src/rantala/funnelsort.cpp:190-264 | all buffers of the DFS layout lie inside the buffer array |
| FunnelLayout.BfsDisjoint | src/rantala/funnelsort.cpp:220-264 | all buffers of the BFS layout are pairwise disjoint and inside the buffer array |
| FunnelSort.FillLeaf | src/rantala/funnelsort.cpp:299-392 | keeps the node's content (buffer followed by the stable merge below), ends full or drained, changes only the node's subtree |
| FunnelSort.FillInner | src/rantala/funnelsort.cpp:394-529 | the same for inner nodes, whose children are refilled when they run empty |
| FunnelSort.FillRoot | src/rantala/funnelsort.cpp:531-592 | writes the whole stable merge of both subtrees if the left one has any string, and nothing at all otherwise |
| FunnelDriver.LayoutValid | src/rantala/funnelsort.cpp:190-264 | both layouts give every node a buffer of its own inside the array |
| FunnelDriver.RootMerges | src/rantala/funnelsort.cpp:531-592 | for K a power of two, what the root delivers is the stable K-way merge of the sorted streams |
| FunnelDriver.LeftHalf | src/rantala/funnelsort.cpp:659-669 | the left half of the streams is empty exactly if there are fewer strings than streams |
| FunnelDriver.ThirtyTwoInto64 | src/rantala/funnelsort.cpp:659-669 | 32 strings in 64 streams: only the last stream is not empty |
| FunnelDriver.MergeRuns | src/rantala/funnelsort.cpp:656-678 | one level writes all n strings stably merged if n ≥ K and none otherwise; in that case the strings are overwritten with what the temporary array held |
| FunnelDriver.Funnelsort | src/rantala/funnelsort.cpp:650-691 | every area of any size is left as a sorted permutation, for K up to 128 and both layouts |
| LcpSplitting.LongLcpSameKey | src/parallel/eberle-parallel-lcp-merge-lcp-splitting.hpp:145-170 | a string whose LCP with its predecessor exceeds the allowed one has the same masked key |
| LcpSplitting.FindNextSplitter | src/parallel/eberle-parallel-lcp-merge-lcp-splitting.hpp:145-170 | skipping by LCP stops at exactly the boundary that comparing every key finds, and returns its key |
| LcpSplitting.SelectStreams | src/parallel/eberle-parallel-lcp-merge-lcp-splitting.hpp:246-271 | selects exactly the non-empty streams with the smallest masked key |
| LcpSplitting.CutIsLess | src/parallel/eberle-parallel-lcp-merge-lcp-splitting.hpp:276-344 | every string of the new job is strictly smaller than every string that remains |
| LcpSplitting.CreateJobs | src/parallel/eberle-parallel-lcp-merge-lcp-splitting.hpp:203-368 | the jobs cut the streams into consecutive slices with contiguous output ranges; each is exactly the strings with the smallest key of the width of its round, which the heuristic gives, and is of the kind that the number of its streams asks for; it aborts exactly in the first round in which more than 64 streams have the smallest key, and otherwise uses all streams up |
| LcpSplitting.NextWidthExact | src/parallel/eberle-parallel-lcp-merge-lcp-splitting.hpp:347-367 | with q jobs expected, the width shrinks by one exactly if there are at least q / 30 + 5 jobs too many, and grows by one exactly if there are that many too few, within 1 to 8 |
| LcpSplitting.ExpectedLengthExact | src/parallel/eberle-parallel-lcp-merge-lcp-splitting.hpp:227-228 | a job should have a hundredth of a thread's share of the strings, and at least 4096 |
| LcpSplitting.KindFits | src/parallel/eberle-parallel-lcp-merge-lcp-splitting.hpp:277-339 | one stream is copied, two are merged directly, more get the smallest power of two from 4 on that is enough |
| LcpSplitting.JobsIncrease | src/parallel/eberle-parallel-lcp-merge-lcp-splitting.hpp:203-368 | every string of a job is strictly smaller than every string of any later job |
| LcpSplitting.OutputsFollow | src/parallel/eberle-parallel-lcp-merge-lcp-splitting.hpp:341-345 | the output range of a job starts where that of the job before ends |
| LcpSplitting.OutputsSorted | src/parallel/eberle-parallel-lcp-merge-lcp-splitting.hpp:203-368 | if every job writes its own strings sorted, the whole output is all strings of all streams sorted |
| LcpSplitting.MergedJobsSort | src/parallel/eberle-parallel-lcp-merge-lcp-splitting.hpp:203-368 | splitting the sorted streams and K-way merging the slices of every job gives all strings of all streams sorted |
| LcpSplitting.NextBaseLcp | src/parallel/eberle-parallel-lcp-merge-lcp-splitting.hpp:99-113 | the strings of a job share `nextBaseLcp` characters exactly if the last byte of their key is not zero |
| LcpSplitting.EmptyStringsEndBefore | src/parallel/eberle-parallel-lcp-merge-lcp-splitting.hpp:99-113 | an empty string has the key 0 and does not share `nextBaseLcp` characters with itself |
| CycleLeader.BeforeDecrement | src/rantala/msd_ci.hpp:63-84 | before each decrement the string in hand still has room in its bucket, or its bucket was complete on arrival, so no counter underflows |
| CycleLeader.CycleStep | src/rantala/msd_ci.hpp:65-79 | putting the string in hand into its bucket and taking the one there keeps the permutation and all placed buckets |
| CycleLeader.CycleEnd | src/rantala/msd_ci.hpp:65-84 | when the cycle closes, the whole bucket at i is in place and may be skipped |
| CycleLeader.LastBucket | src/rantala/msd_ci.hpp:58-84 | stopping before the last non-empty bucket is right: everything is in place |
| CycleLeader.FollowCycle | src/parallel/bingmann-parallel_radix_sort.hpp:133-160 | one outer round ends with the bucket at i complete and the position after it the start of the next |
| CycleLeader.DistributeInPlace | src/rantala/msd_ci.hpp:49-85 | terminates with a permutation in which every bucket occupies exactly its prefix-sum range |
| CycleLeader.MsdCi | src/rantala/msd_ci.hpp:41-92 | the whole recursive sort leaves a sorted permutation of the area and touches nothing outside |
| FlipFlop.DistributedPermutes | src/parallel/akiba-parallel_string_radix_sort.cpp:271-273 | writing every string to its place is a permutation |
| FlipFlop.Distributed | src/parallel/akiba-parallel_string_radix_sort.cpp:255-273 | after counting and moving, every bucket range holds exactly strings of its letter |
| FlipFlop.LetterDeeper | src/parallel/akiba-parallel_string_radix_sort.cpp:326-330 | a bucket with a zero low byte holds equal texts, any other one shares one or two more characters |
| FlipFlop.ParallelStringRadixSort.SwapEnded | src/parallel/akiba-parallel_string_radix_sort.cpp:275-280 | exactly the strings that end with their letter return to `data_`, all 256 such buckets in the 16-bit case |
| FlipFlop.ParallelStringRadixSort.SortLetter | src/parallel/akiba-parallel_string_radix_sort.cpp:282-286 | a bucket extends the sorted part of `data_` and leaves later buckets where they wait |
| FlipFlop.ParallelStringRadixSort.SortLetters | src/parallel/akiba-parallel_string_radix_sort.cpp:247-333 | Sort8 and Sort16, either flip: a sorted permutation of the source range ends in `data_`, nothing outside the range changes in any array |
| FlipFlop.ParallelStringRadixSort.Recurse | src/parallel/akiba-parallel_string_radix_sort.cpp:189-206 | the same for every depth and size, with `temp_` as the source if flip |
| FlipFlop.ParallelStringRadixSort.Sort | src/parallel/akiba-parallel_string_radix_sort.cpp:241-245 | the whole array ends as a sorted permutation of the input |

## Left out

- The remaining sorters (mergesort variants without LCPs or marked broken in the source, burstsort, multikey_dynamic, msd_CE variants, standard and binary splitting) and the test harness, timers, NUMA, OpenMP, SSE, debug output and allocation.
- Character caches of the string pointers (`set_cache`) in pS5 and LCP insertion sort: they are written next to the LCPs and never read by the modelled code.
- Integer widths: sizes and counters are unbounded; the model proves that no counter goes below zero.
- Children of a job run as one step with all their descendants, at any point of the parent's schedule. That finer interleavings reach nothing else is proved in the module Interleaving for steps that are local to disjoint areas, also between a step and its own sub-areas' jobs; the locality of single machine steps is an assumption of it.
- Completion.RunSafe: its tree of counters is a model of its own; the counter of each job in the module Smallsort counts the child jobs of that job.
- Classifier.ClassifyTree.Find: the unrolled, interleaved and assembler variants of the descent, and the classifiers with equality tests, are not modelled.
- Potential.PushPays: the bounds on text length and area size in it are ghost parameters that the source does not have.
- MKQS key caches: a cached key lies at the index of its string; pointer offsets into a larger cache and its reallocation are not modelled, except that a cache of any sufficient size will do.
- ParallelPartition.RunPartition: fetching a block and pushing the used one is one atomic action; buffers are values because each has one owner.
- ParallelMkqs.ParallelJob: its pivot is the key of any string of the source; the positions that `select_pivot` samples are not modelled. What is read behind a terminator is not modelled either, so nothing is promised about the output once that happens. The jobs of one step run one after the other, their output areas being disjoint.
- Blocks.BucketSort: temporary space and string array are one address space with the temporary blocks first.
- BlockSorts.MsdD: like BlockSorts.MultikeyBlock, it copies an area behind the spare blocks and back instead of having them at an unrelated address; the sorters for small inputs are any sort, and `is_end` of a word, which is not part of this model, means that its last byte is zero.
- LcpMerge.MergeLcp2way: the last LCP entry of each run is scratch, as in the source.
- StableSort.InsertionSort: stands for the small sorters the files call, also for `mergesort_4way` in funnelsort and `std::sort` in the flip-flop radix sort, of which only a sorted permutation is used.
- FunnelDriver.Funnelsort: describes the program without assertions; where `assert(buffer_count[3] != 0)` would fail is what FunnelDriver.MergeRuns states.
- FunnelSort.FillLeaf: the two merging loops, which differ in their bound, are one loop with that bound as a parameter.
- FlipFlop.ParallelStringRadixSort.SortLetters: Sort8 and Sort16 are one method with the width as a parameter, Sort16Parallel the same with its buckets in any order not modelled: their ranges are disjoint.
- LcpSplitting.NextWidthExact: counters do not wrap around.
- LcpSplitting.MergedJobsSort: a merge job's result is the K-way merge of its slices; the code of its loser tree and binary merge is not modelled (LcpMerge.MergeLcp2way models the binary one of the sequential mergesort).
- The radix SmallsortJob of src/parallel/bingmann-parallel_radix_sort.hpp with its own stack, and the sequential burst trie, would repeat the stack and bucket arguments above.
