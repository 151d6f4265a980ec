# Verified models of FastGen and its neighbours

FastGen serves many generation requests on one GPU cache. Requests become lanes, lanes own
blocks of the cache, and a round of the scheduler parks short lanes when blocks run out, decodes a
few tokens for all active lanes, admits waiting lanes, prefills them (partly from a cache of pages
in host memory) and yields the lanes that are finished. This project models that scheduler with
the data structures under it, the layer that drives it on several ranks, and four smaller cores
beside it, and proves that they do what they are for.

- **Scheduler** (`Sched`, `Steps`, `Counts`, `Evictions`, `Admissions`, `Decodes`, `Prefills`,
  `Rounds`, `Turns`, `Outputs`, `Lanes`, `Queues`, `FastGens`). `FastGens.FastGen` is a class with the
  fields of the original: the lane list, the parking queue, the free set, the per-lane tensors and the
  cache array. Each method is tied to a function on snapshots of that state, and the invariant
  `Steps.Ok` is kept by every step. `Generate` is the whole loop: it ends, answers each packet once,
  cuts each answer where it should end and, up to the first copy that comes too late (below), each
  answer is one a fresh computation without any batching, eviction or caching could have given.
- **Integer sets** (`Bits`, `SetNodes`, `SetQueries`, `SetLists`, `ISets`). The Patricia tree that
  holds the free blocks, with Python's bit operations on unbounded numbers.
- **Host cache** (`HostCaches`, `HostCopies`, `LateRuns`). The trie of token pages with its clock,
  frozen nodes, buffer pool and eviction, and the copies that are on their way to it.
- **Stop rules** (`Stops`). The windowed search for a stop string and the trimming of an answer.
- **Sharded context** (`MlaPlans`, `Slots`, `PagedMemcpy`). The chunks in which a prefill reads the
  cached context, the addresses the reader and the writer compute, and the writing kernel.
- **Estimators** (`Combs`, `Outcomes`). pass@k, rank-score@k, short-1@k and short-m@k over exact
  rationals.
- **Ranks** (`ImpGens`). Several ranks drive their generators in lockstep from two shared queues.
- **Sandbox server** (`Servers`) and **evaluation pipeline** (`Evals`).

`Basics`, `Seqs`, `Kv` and `Pages` hold what these share: small values, lists without repetition,
the contents of cache cells and of pages. `dafny verify dfyconfig.toml` checks everything.

## What is assumed

- The model is uninterpreted: the cell of a position is a function `kv` of the cells before it and
  the token there, and a token is drawn by a function `pick` of the cells, the temperature, top-p and
  some noise. Temperatures and top-p are opaque numbers.
- A copy to the host reads the whole page at one moment: at `_sync_host_cache`, or earlier, before
  the next preparation. Any number of the pending copies may complete early, in the order in which
  they were queued. The event recorded in `_prefill` covers them all. Copies from the host complete
  before the call that reads them, as its events demand.
- Configurations satisfy the assertions of the constructor and what it relies on: `max_seq` is
  `nblocks * page_len`, at least `max_batch * page_len` and at least 256, `1 <= sync_freq < page_len`,
  `max_prefill >= 2`. Nodes of the host cache hold one page (`node_len == page_len`, one cache shard).
- Packets have a non-empty prompt and, if they have a stop string, a non-empty one. Every round is
  proved for prompts of any length; that the loop ends needs prompts of at most `max_seq - 128` tokens
  (`Config.Fits`), and `FastGen.GoOn` shows that it never ends with a longer one.
- Decoding a list of tokens is the concatenation of the non-empty texts of the tokens.
- `is` between tree nodes is modelled as in the original: two `Mem` nodes with the same flag are one
  object, and other nodes are shared only at the same place of the tree.
- A shared queue shows every rank the same order, whatever the delays.
- `Sched.Config.exact` is a specification-only flag. It says whether contents are still claimed. It
  is true in the configuration that is passed in, and becomes false when a pending page is rewritten.

## Model

| member | source | states |
|---|---|---|
| `FastGens.FastGen.Generate` | cwm/fastgen/generate.py:447-519 | With prompts of at most `max_seq - 128` tokens the loop terminates with nothing active or parked and the queue read to its sentinel; the answers are for exactly the packets read, each once; every answer ends at the first token where some rule ends it. In the answers of a round every token is a draw from the cells a fresh computation gives for the prompt and the tokens before it, if no pending page was rewritten in the rounds up to that one. The run is exact at its end if and only if none was rewritten at all, as when the host cache is off or every packet is light (`max_batch` lanes of it fit the cache at once). |
| `FastGens.FastGen.GoOn` | cwm/fastgen/generate.py:447-519 | With a longer prompt among the packets the loop never ends: after any number of rounds its guard still holds, that packet is unanswered, and no other packet was lost or answered twice. |
| `FastGens.FastGen.Round` | cwm/fastgen/generate.py:460-519 | One turn keeps the invariant and moves packets only from the queue to lanes to answers without losing or repeating one. It lowers the termination measure unless a parked lane is too long; once such a lane is first in the parking queue nothing is read and it stays first. The run stays exact if and only if no pending page was rewritten, as when the cache is off or all lanes are light. |
| `FastGens.FastGen.PrepareLanes` | cwm/fastgen/generate.py:530-580 | Ends with its assertions holding; every surviving lane has room for a decoding call; the parked lanes are appended and none is longer than a survivor; at least one lane stays active; packets, tokens and cells are unchanged. |
| `Evictions.EvictOrder` | cwm/fastgen/generate.py:556-565 | After a swap-delete the partly repaired `decr` still lists the lanes to be visited, each once and longest first. |
| `FastGens.FastGen.KillLane` | cwm/fastgen/generate.py:1016-1057 | The tensors, the lane list, the parking queue and the free set change as one transition of the snapshot: the last lane takes the victim's place, its old entry is cleared, the victim's blocks are free. |
| `Steps.KillOk` | cwm/fastgen/generate.py:1016-1057 | That transition keeps the scheduler invariant: free blocks and lanes' blocks partition the cache, each table row starts with its lane's blocks, and each lane's cells are those of its tokens. |
| `FastGens.FastGen.AddBlock` | cwm/fastgen/generate.py:568-571 | The lane gets a free block, in its list, its set and its table row; no other lane is touched. |
| `FastGens.FastGen.AddLanes` | cwm/fastgen/generate.py:582-658 | Admitted lanes followed by parked ones are the previously parked ones followed by the packets read: first come, first served, also when an admission is undone. With nothing active nothing is admitted only at the very end or behind a lane that is too long; behind such a lane nobody is admitted, nothing is read and the whole state stays as it was. |
| `Admissions.AskFits` | cwm/fastgen/generate.py:600-634 | An accepted lane, also one that was evicted, never asks for more blocks than there are. |
| `Admissions.BlockedAsks` | cwm/fastgen/generate.py:626-634 | In every reachable state a parked lane of more than `max_seq - 128` tokens asks for more blocks than are free. |
| `FastGens.FastGen.Decode` | cwm/fastgen/generate.py:729-809 | The length assertion holds, there is at least one step, no length passes `max_seq`, each active lane gets one drawn token a step, and no cell changes but those that active lanes write in their own blocks. |
| `Decodes.OwnBlock` | cwm/fastgen/kernels/paged_memcpy.py:63-81 | Two different (lane, position) pairs never share a slot of the cache, and both slots lie inside it. |
| `FastGens.FastGen.Prefill` | cwm/fastgen/generate.py:811-994 | Every admitted lane becomes active with one token drawn from the cells of its own tokens, whatever was found in the host cache and however the tokens were split into calls; the other lanes keep their state. |
| `FastGens.FastGen.PrefillSplit` | cwm/fastgen/generate.py:885-938 | The split loop ends, its assertions hold, each lane's pieces follow each other from what was cached, at most `max_prefill` tokens remain for the last call, and there is one row of logits for each lane that is complete. |
| `Prefills.ChunkOfPlan` | cwm/fastgen/generate.py:886-905 | Cutting the flat token list inside a lane gives a chunk whose pieces are exactly the tokens that `seq_info` announces for each lane. |
| `FastGens.FastGen.PageIn` | cwm/fastgen/utils/cache.py:221-239 | After page-in the pages found in the host cache are in the lanes' blocks, with the cells a computation of their tokens would give; nothing is copied when the mode or the cache is off. |
| `FastGens.FastGen.PageOut` | cwm/fastgen/utils/cache.py:241-257 | A copy is queued for every inserted node, from a block that holds that page now. |
| `FastGens.FastGen.FinishLanes` | cwm/fastgen/generate.py:500-519 | The reverse loop tests, cuts, yields and kills: each lane is answered or kept, answers end where they should, the host cache is synced before a lane is killed, and the work left shrinks by a token for every lane. |
| `FastGens.FastGen.SyncHostCache` | cwm/fastgen/generate.py:672-679 | Afterwards no copy is pending and, in an exact run, the buffers hold the pages they were reserved for. |
| `FastGens.FastGen.DecodeAndTidy` | cwm/fastgen/generate.py:478-490 | Decoding before the sync leaves the run exact exactly when no pending page's block was written. |
| `HostCopies.LateCopy` | cwm/fastgen/generate.py:469-490 | A copy that runs at the sync after a preparation and n decoding steps saves the page it was queued for if and only if no active lane's write in those steps falls in its block. |
| `HostCopies.NobodyParked` | cwm/fastgen/generate.py:530-580 | When preparation parks nobody no pending page can be rewritten. |
| `HostCopies.LightSpares` | cwm/fastgen/generate.py:530-580 | When all packets are light, or nothing is pending, every pending page is spared. |
| `LateRuns.FirstRound` | cwm/fastgen/generate.py:582-994 | From the empty generator with four blocks of 256 two packets of 384 and 256 tokens are admitted, prefilled and drawn for; all invariants hold, nothing is free, and block 2 holds the short one's page. |
| `LateRuns.Evicts` | cwm/fastgen/generate.py:545-571 | The next preparation visits the long lane first, finds no room and nothing free, parks the short lane, which is last in the order, and gives block 2, the least that is free, to the long one. |
| `LateRuns.TooLate` | cwm/fastgen/generate.py:469-490 | After the 200 decoding steps that then run, whatever they draw, the pending copy reads the long lane's cells where the short lane's page was. |
| `LateRuns.Resumes` | cwm/fastgen/generate.py:500-634 | The long lane ends in that round, in which the short one cannot be admitted yet; in the next round all blocks are free and it is. |
| `LateRuns.WrongAnswer` | cwm/fastgen/generate.py:811-1014 | Resumed from the page that was saved, the short lane draws 512 where a fresh computation draws 0, and its answer ends with that token; the only right answer to the packet is another one. |
| `LateRuns.LateRun` | cwm/fastgen/generate.py:447-519 | The whole run exists: from the empty generator to an answer that is not complete. |
| `Outputs.OneAnswer` | cwm/fastgen/generate.py:996-1014 | When the draw ignores noise (argmax), a packet has at most one complete answer, so batching, eviction and paging cannot show. |
| `Rounds.DueNow` | cwm/fastgen/generate.py:681-689 | Testing the new tokens and the length is the same as testing the whole output, for a lane not due before. |
| `Stops.WindowSuffices` | cwm/fastgen/generate.py:521-528 | Looking for the stop string in the last `len(stop_str) + n_new` tokens finds it exactly when it is in the whole output, if it was not there before. |
| `Stops.HasStopStr` | cwm/fastgen/generate.py:521-528 | The method answers whether the stop string occurs in the decoded output. |
| `Stops.TrimPos` | cwm/fastgen/generate.py:691-727 | The trimmed output is the shortest prefix that ends at a stop token, contains the stop string or reaches `max_gen`, or everything when there is none, although only the last `sync_freq + 1` tokens are searched. |
| `HostCaches.HostCache.PrepareLane` | cwm/fastgen/utils/cache.py:370-460 | The lane's nodes spell its prompt page by page; the found ones are unfrozen, the rest are new, frozen and have buffers of their own; trie, pool, clocks and contents stay in order. |
| `HostCaches.HostCache.Tick` | cwm/fastgen/utils/cache.py:334-337 | Inserted nodes become visible and the clock advances, with the cache in order but nothing said of buffers still waiting for a copy. |
| `HostCaches.HostCache.Maintain` | cwm/fastgen/utils/cache.py:339-368 | Its assertions hold; above the limit exactly enough nodes go, least recently used and deepest first, the trie stays prefix-closed with `num_nodes` its true size, and the pool gets every evicted buffer back once. |
| `HostCaches.MinIsLeaf` | cwm/fastgen/utils/cache.py:343-365 | The least (clock, -depth) entry never has children, because clocks never grow with depth. |
| `SetNodes.Union` | cwm/fastgen/utils/iset.py:109-256 | `_union` on canonical trees of one level terminates in spite of its swaps, trips no assertion and returns a canonical tree. |
| `SetNodes.UnionContains` | cwm/fastgen/utils/iset.py:160-256 | The result denotes the union. |
| `SetNodes.ShiftLoop` | cwm/fastgen/utils/iset.py:175-180 | The shift loop computes the mask of ones that the recursion over it describes, in which `Union` is written. |
| `SetNodes.ShiftOnesIsRun` | cwm/fastgen/utils/iset.py:175-180 | On a mask that is a run of ones the loop leaves exactly the ones above the highest differing bit. |
| `SetQueries.Unique` | cwm/fastgen/utils/iset.py:140-226 | Canonical trees of one level with the same elements are the same tree. |
| `SetQueries.Interval` | cwm/fastgen/utils/iset.py:64-80 | `interval(a, b)` terminates and returns the canonical tree of the numbers from a up to b. |
| `SetLists.ToList` | cwm/fastgen/utils/iset.py:122-281 | `tolist` lists the elements in strictly ascending order, and nothing else; the assertions on its masks hold. |
| `SetLists.LenIsSize` | cwm/fastgen/utils/iset.py:100-231 | `_len` is the number of elements listed. |
| `SetLists.Take` | cwm/fastgen/utils/iset.py:112-274 | `_take` splits into two canonical trees: the given number of smallest elements and the rest. |
| `ISets.CanonicalForm` | cwm/fastgen/utils/iset.py:140-226 | Over the full range of 32 bits two trees denote the same set if and only if they are equal. |
| `ISets.ISet.Add` | cwm/fastgen/utils/iset.py:303-304 | Adds one element to the set the object denotes. |
| `ISets.ISet.Merge` | cwm/fastgen/utils/iset.py:306-307 | The set becomes the union with the other one. |
| `ISets.ISet.Take` | cwm/fastgen/utils/iset.py:309-311 | Two fresh sets that together are this one, the first of the asked size if possible, and all its elements below the other's. |
| `ISets.ISet.PopLeft` | cwm/fastgen/utils/iset.py:313-316 | Removes and returns the least element. |
| `ISets.ISet.List` | cwm/fastgen/utils/iset.py:300-301 | The ascending list of the elements, as long as there are elements. |
| `MlaPlans.Prepare` | cwm/fastgen/forward.py:264-360 | The assertion at line 318 fails if and only if some empty context lies strictly inside a chunk; otherwise the chunks cut all contexts into consecutive pieces of at most `chunk_size` without gap or overlap, with the right starts, lengths and indices. |
| `MlaPlans.ShardsPartition` | cwm/fastgen/forward.py:319-335 | Each offset of a chunk is listed by exactly one shard, the one whose turn its position is. |
| `MlaPlans.ReadsWhatWasWritten` | cwm/fastgen/forward.py:336-339 | The slot gathered for a listed offset is the slot the kernel wrote for that position. |
| `Slots.SameSlot` | cwm/fastgen/forward.py:336-339 | The reader's and the writer's formulas give the same slot for every position. |
| `Slots.LocalLength` | cwm/fastgen/forward.py:520-528 | The local length of a shard is the number of positions that fall to it. |
| `Slots.SharesAddUp` | cwm/fastgen/forward.py:520-528 | The local lengths of all shards sum to the sequence length. |
| `PagedMemcpy.Copy` | cwm/fastgen/kernels/paged_memcpy.py:21-87 | Every element of the batch reaches its slot and no other cell of the destination changes. |
| `PagedMemcpy.SchedulerSlot` | cwm/fastgen/kernels/paged_memcpy.py:63-81 | With one shard that slot is the one the scheduler's block table means. |
| `Outcomes.PassAtKIsFraction` | cwm/rl/envs/outcomes.py:159-170 | pass@k is the fraction of the k-subsets of the samples that contain a correct one. |
| `Outcomes.Short1AtK` | cwm/rl/envs/outcomes.py:189-201 | The closed form on the sorted list is the average, over all k-subsets, of the score of the element ranked first. |
| `Outcomes.ShortMAtK` | cwm/rl/envs/outcomes.py:240-258 | The score is the average, over all k-subsets, of the vote among the m shortest, with or without answers; through the shortcut for m = 1 it is that average if and only if no sample misleads it, and more otherwise. |
| `Outcomes.ShortcutIsExact` | cwm/rl/envs/outcomes.py:240-256 | For m = 1 the shortcut, which ranks samples without an answer last, never counts less than the general method, which ranks them by length and gives them nothing; they agree if and only if no passing sample is first of some k-subset in the shortcut's order while a sample without an answer is first in the other. |
| `Outcomes.NoneFirst` | cwm/rl/envs/outcomes.py:240-256 | Two samples, the shorter one without an answer and not passing, the longer one right, k = 2: the shortcut gives 1, the general method 0. |
| `Outcomes.ImplIsShort1` | cwm/rl/envs/outcomes.py:204-237 | With m = 1 the general method is the average, over all k-subsets, of the score of the shortest sample, where one without an answer scores 0. |
| `ImpGens.StepKeeps` | cwm/rl/lib/impgen/impgen.py:125-213 | Every step of a thread, a rank or a queue keeps the invariant that what each rank has taken and fed is what the flags it has followed say. |
| `ImpGens.SameFeed` | cwm/rl/lib/impgen/impgen.py:192-213 | In every run, ranks that have completed as many sync rounds have fed their generators the same packets in the same order, and, at the same point of `work`, have the same generator history and the same count in flight. |
| `ImpGens.IdsDiffer` | cwm/rl/lib/impgen/impgen.py:125-141 | In every run no two packets in the queue have the same id, and the id names the rank that issued it. |
| `ImpGens.SetOnce` | cwm/rl/lib/impgen/impgen.py:184-188 | In every run each future is set at most once, only on the rank that issued its id, and every id issued either waits or was set. |
| `ImpGens.Delivery` | cwm/rl/lib/impgen/impgen.py:171-190 | With a generator that answers what it read before a sentinel, once, and reads nothing after it: the futures set on a rank are exactly the answers to its own ids, and a request waits exactly as long as its packet is unanswered. |
| `ImpGens.NeverBlocks` | cwm/rl/lib/impgen/impgen.py:169-174 | With the same generator: when `work` calls `next` and no sentinel was fed, some fed packet is unanswered, so the generator does not wait on an empty queue. |
| `ImpGens.Shutdown` | cwm/rl/lib/impgen/impgen.py:176-179 | With the same generator: when it ends, what counts as in flight is everything fed from the first sentinel on, so the first assertion holds if and only if that sentinel was the last item fed; the second holds if and only if every request of the rank was fed before it. |
| `ImpGens.StopAgain` | cwm/rl/lib/impgen/impgen.py:145-155 | Once all ranks have stopped, every further call of `stop` on rank 0 puts one more sentinel. |
| `ImpGens.StoppedTwiceFails` | cwm/rl/lib/impgen/impgen.py:145-179 | A run of one rank, step by step, in which the first assertion fails with two sentinels in flight. |
| `ImpGens.PutLateFails` | cwm/rl/lib/impgen/impgen.py:125-179 | A run in which a request put after the sentinel is in flight with it: both assertions fail and its future is never set. |
| `Servers.ForkServer.Spawn` | cwm/exec/code/lib/server.py:134-205 | The returned vpid is the first attempt whose canary came; with the commands sent, it is the one more child that is started and not killed, and after giving up there is none. |
| `Servers.ForkServer.SendSpawn` | cwm/exec/code/lib/server.py:175-180 | Each critical section sends a vpid never sent before. |
| `Servers.Pool.Spawn` | cwm/exec/code/lib/server.py:265-391 | A persistent program gets the last idle worker with its limits, or a new one if there is none; the other children and workers are untouched. |
| `Servers.Pool.Kill` | cwm/exec/code/lib/server.py:392-415 | A known child is killed; its worker becomes idle again if it reported a clean end that is not its twentieth, and is killed and leaves the pool otherwise. |
| `Servers.Pool.BusyIffHeld` | cwm/exec/code/lib/server.py:273-319 | In every reachable state a pooled worker is busy if and only if a live child holds it, and only one does. |
| `Servers.Pool.Serve` | cwm/exec/code/lib/server.py:254-420 | After any commands the children known are those started and not killed; no vpid assertion fails. |
| `Servers.Pool.TrySpawn` | cwm/exec/code/lib/server.py:265-391 | An exception between a fork and its registration leaves exactly one process that the pool does not know; without one the command does all it should. |
| `Servers.Run` | cwm/exec/code/lib/server.py:246-434 | Whatever the commands and however the loop ends, every child and worker forked has been killed, each exactly once, except that after an exception between a fork and its registration exactly one is left alive. |
| `Evals.LoadData` | evals/main.py:85-130 | The loader puts each source as often as it is still wanted and then one None for each rollout thread. |
| `Evals.StepKeeps` | evals/main.py:112-287 | Every step of the loader, a rollout thread or the dumping thread keeps the accounting of both queues. |
| `Evals.Finished` | evals/main.py:246-287 | In every run, when the dumping thread returns every successful rollout is written once, every prompt ended in success or failure, all rollout threads have stopped and the queues are empty. |
| `Evals.NoDeadlock` | evals/main.py:121-256 | Until then some thread can always take a step, also with the loader waiting on a long queue. |
| `Evals.Bounded` | evals/main.py:85-287 | No run is longer than five steps for each prompt and thread. |
| `Evals.Resumed` | evals/main.py:91-125 | A resumed run without failures ends with the samples that were there and all that the lines owe; that is the larger of what was there and what the most demanding line wants if and only if at most one line naming the source wants more than was there. |

## Findings

- **A page can be saved too late.** `_prefill` unfreezes the inserted nodes (generate.py:964) while
  their copies to the host may still be running; the event is only waited for at lines 489 and 518.
  The next round first prepares (469), which may park the lane (558) and hand its block on, and then
  decodes into that block (480) before the wait. The node then holds another lane's cells, and a later
  prompt with the same prefix, as that of the parked lane itself, is answered from them. `LateRuns`
  gives the run from the empty generator to a wrong answer: four blocks of 256, `sync_freq` 200, packets
  of 384 and 256 tokens, and copies that are not done before line 489. `HostCopies.LateCopy` gives the
  exact condition for one page, `DecodeAndTidy` for a round and `Generate` for a run; two conditions that
  can be checked beforehand exclude it: the host cache is off, or `max_batch` lanes of every packet's
  largest size fit the cache. A wait before line 469 would do.
- **A prompt of more than `max_seq - 128` tokens stops the loop for good.** It asks for more blocks than
  there are (628-629), stays in the parking queue (630-634) and blocks everything behind it, so the guard
  at line 460 stays true for ever (`FastGen.GoOn`; `FastGen.Round` for each turn), although line 844 only
  demands less than `max_seq`.
- **An empty context inside a chunk trips the assertion at forward.py:318**, and nothing else does
  (`MlaPlans.Prepare`); empty contexts at a chunk boundary or at either end are harmless.
- **`work` can fail its assertions.** The first (impgen.py:177) holds exactly when the generator's first
  sentinel was the last item fed to it, the second exactly when no request of the rank came after that
  sentinel (`ImpGens.Shutdown`). `stop` may put several sentinels, as the evaluation loop calls it on every
  turn once its threads are done (evals/main.py:563-565), and a request may be put after one; when either
  arrives in the same sync round an assertion fails (`ImpGens.StoppedTwiceFails`, `ImpGens.PutLateFails`).
- **The shortcut for short-1@k differs from the general method** exactly when a sample without an answer
  would be ranked before a passing one, or passes itself, in a k-subset that the shortcut scores
  (`Outcomes.ShortcutIsExact`; `Outcomes.NoneFirst` is the smallest case). It is then the larger of the two.
- **An exception between a fork and its registration leaves a process behind** (server.py:283-309 and
  371-377); nothing else does (`Servers.Run`).
- **A source named by several dataset lines may be sampled too often.** `load_data` counts the missing
  samples for each line separately (evals/main.py:120), so a run ends above the number wanted exactly when
  more than one of the lines wants more than was there (`Evals.Resumed`).

## Left out

- Steps.KillOk: a lane that is parked must have at least 128 positions left, which is what preparation
  guarantees for the lanes it parks.
- Outcomes.ShortMAtK: all subsets are enumerated, not the random ones taken above 100000
  (outcomes.py:130-138), and a vote is a real number, so the quotient with minus infinity is 0.
- LateRuns.WrongAnswer: that the third round finds the short packet's page in the trie is what
  `HostCaches.HostCache.PrepareLane` says of an inserted page that was not evicted; the run itself does not
  carry the trie.
- Outcomes.PassAtKIsFraction: exact rationals instead of floats.
- Evals.NoDeadlock: a rollout is one step that ends in success or failure; retries, environments and the
  reward are inside it, and an exception that ends a thread is not modelled.
- Servers.Pool.Spawn: pipes, limits and the sandboxed programs themselves; a worker that died by itself.
- ImpGens.SameFeed: the generator is a function of what it was fed and how often it ran, the same on
  every rank, and moodist's queues are taken as one order that reaches each rank with any delay.
- FastGens.FastGen.Decode: the steps of one call run lane after lane instead of all lanes at once; lanes
  read and write only their own blocks, so the order does not show.
- FastGens.FastGen.PrepareLanes: sorting is a function on the list of lengths.
- Lanes after the last active one: the original keeps placeholder objects there, the model keeps none.
- A lane's block set is one object whose contents `set_blocks` replaces; trie nodes and host buffers are
  entries of maps from identities, not heap objects.
- Prompt logprobs, logprobs, handover, `top_p_lanes`, CUDA graphs, profiling, metrics and the consistency
  checks between ranks inside FastGen.
- That the trie always finds the longest match: it does not, because a batch may insert the same page twice.
- `majority_at_k` (random), aggregation of metrics, checkpoints, tokenizers, dialogs and environments.
