# Verified model of the inference engine's hard core

A Dafny model of two files of the engine: `c/grammar.h`, the byte-level GBNF grammar walker, and `c/glm.c`, the
mixture-of-experts inference engine. Code that works in place is modelled by classes and loops with the same branches,
constants and order of writes; each method is proved against a specification, and the laws are lemmas about the
specifications. `dafny verify dfyconfig.toml` checks everything.

## What is modelled

**Grammar.** `Language` gives rules a least-fixed-point meaning, approximated by derivation height. `Postfix` is the
parser's rewriting of `?`, `*` and `+` into fresh rules, on a class that grows the rule arrays in place. `Stacks` and
`Walker` are the pushdown automaton with its set of at most 64 stacks and depth bound 64: `Expand` and `Derive` say
order-free what `gr__normalize` and `gr_accept` add, and a live walker is shown to denote exactly the continuations of
what it consumed, in every run and for left-recursive grammars too.

**Speculative decoding.** `SpecTree` turns plain decoding and the speculative loop into trees of draws, accept flips
and emissions; drafts and interrupts are arbitrary functions of everything that has happened. `Sampling` gives the
measure of the draws that select a token, with and without a banned token; `DistBuild` the nucleus-truncated softmax.
`Forward` is the layer-by-layer batch forward over a cache that may hold stale rows, and `SpecDecode` the engine's
loop over history, cache, carried ban and logits row, proved to emit what the tree says.

**Attention.** `Quant` is row access for weight formats 0 to 3, `Attention` the weight-absorbed and the reconstructing
head, `Dsa` the threshold-then-ties selection.

**Experts.** `Experts` holds the slots (pins, per-layer LRU, working set, buffer ownership), `Moe` the routing and the
batch union over them, `MoeSteps` the same block one write at a time, `RamCap` the memory cap. `Pilot`, `Pipe` and
`Ring` are the three concurrent protocols as interleaved steps under sequential consistency: mutex sections, single
loads, stores and compare-and-swaps.

**Serving.** `Serve` is the multiplexed server, `KvFile` the conversation file with crashes at any byte, `Kernels` and
`Packing` the vector dot kernels and the quantisers, `Lists` counts distinct lists.

## Where the code does less than its comments say

- `gr_accept` may return 1 for a byte that no complete word continues. After any run this happens if and only if the
  byte is accepted and every stack that moves on it still has to match a symbol that generates nothing
  (`Walker.FollowedInVainIff`); `Walker.UselessRuleIsFollowed` is such a grammar. A return of 0 always means that no
  continuation exists.
- The comment on the load pipeline says that a straggler can never grab a job of the wrong generation. `njobs` is
  stored before `cur` is, so a worker that is not at rest can win inside that window. A dispatch is safe in every
  interleaving if and only if every worker is asleep, or about to sleep, on the current generation, or every slot the
  batch has beyond the last one carries its new job already, as it does when the batch is not longer (`Pipe.SafeIff`).
  A run from every initial state reaches a slot that reads as ready with the wrong job in it (`Pipe.RaceReachable`).
  The other theorems of `Pipe` hold of every run in which no worker wins inside the window.
- `kv_disk_truncate` says it drops the handle to shrink the file; it only rewrites the counter, and stale records
  stay. An append is crash-safe if and only if no complete counted record lies beyond `disk_nrec`
  (`KvFile.CrashSafeIff`), or the context length of every later start refuses the stale count
  (`KvFile.CrashSafeAtIff`). A load that finds the saved conversation too long, or a truncate that cannot open the
  file, leaves `disk_nrec` at 0 beside the stale count. After the former, if the next append is cut short, starts with
  the same context still load nothing, but a start with a longer context loads a history nobody had
  (`KvFile.RefusedThenLonger`).
- The speculative sampler floors the mass left beside a banned token at 1e-12. For weights in single precision, as the
  code holds them, the floor is never reached (`Sampling.SingleStep`) and speculation is exact. For real-valued
  weights it is exact if and only if no distribution leaves a positive mass below the floor spread over several tokens
  (`SpecTree.InvisibleIff`, `Sampling.FloorBites`).

## Model

| member | source | states |
|---|---|---|
| Language.InRef | c/grammar.h:41-49 | a reference denotes exactly the union of its rule's alternates, under least-fixed-point meaning |
| Language.InPost | c/grammar.h:156-159 | a postfix symbol denotes the empty word or the item, any number of items, or at least one |
| Postfix.Grammar.Apply | c/grammar.h:160-184 | the in-place rewriting either fails on the rule limit or leaves the rules as `Desugared`: item rule, operator rule, reference in the alternate; an empty item is a no-op |
| Postfix.Grammar.ItemToRule | c/grammar.h:167-170 | the item's symbols become the only alternate of a fresh rule and leave the alternate they stood in, unless the rule table is full |
| Postfix.Grammar.OpToRule | c/grammar.h:171-179 | the operator rule gets its one or two alternates |
| Postfix.RuleIsPostfix | c/grammar.h:156-159 | the fresh rule denotes exactly item?, item* or item+, nullable items included |
| Postfix.DesugaringPreservesMeaning | c/grammar.h:160-184 | no rule's language changes: after the rewriting every old rule denotes what it denoted with the postfix read as an operator |
| Postfix.DesugaredAlternate | c/grammar.h:160-184 | the enclosing alternate denotes the prefix followed by the postfix of the item |
| Walker.GrState.SetAdd | c/grammar.h:274-279 | adds the stack unless that exceeds the limit; duplicates do not count |
| Walker.GrState.Normalize | c/grammar.h:282-301 | terminates on every grammar; succeeds if and only if no path of single steps meets a bound and at most 64 stacks hold the old ones and all that is reached; then exactly the reached normal stacks are added |
| Stacks.ExpandMeaning | c/grammar.h:280-301 | normalisation preserves the language: the normal stacks denote together what the stack denoted |
| Stacks.ExpandIs | c/grammar.h:282-301 | unfolding a stack fails if and only if some path of single steps (pop an exhausted frame, or pass a reference and push one alternate, one deeper) meets a reference at depth 64 or a push on 64 frames; otherwise it yields exactly the normal stacks such paths reach |
| Walker.DeriveMeaning | c/grammar.h:312-330 | the derivative by a byte denotes exactly the words that continued with that byte |
| Walker.DeriveBounded | c/grammar.h:317-326 | the walker goes off at a byte exactly when a moved stack meets a bound or they unfold to more than 64 stacks; otherwise the derivative is exactly what they unfold to |
| Walker.StartsExact | c/grammar.h:302-311 | the initial stacks denote exactly L(root) |
| Walker.GrState.Init | c/grammar.h:302-311 | the walker is live if and only if no path from an alternate of the root meets a bound, what they reach fits 64 stacks and something is reached; it then holds exactly that, and is exact |
| Walker.GrState.AdvanceAll | c/grammar.h:317-326 | the new set is the derivative of the old, or the walker overflows |
| Walker.GrState.Accept | c/grammar.h:312-330 | -1 exactly when the walker was off, or a stack past the byte meets a bound or they reach more than 64 stacks; 0 exactly when they reach nothing, leaving the state, and then no word continues; 1 with exactly what they reach; a live walker stays exact |
| Walker.RunExact | c/grammar.h:302-330 | after any accepted run u the stacks denote w if and only if uw is in L(root) |
| Walker.ContinuesIff | c/grammar.h:312-330 | some word continues with the byte if and only if some stack moves on it and every symbol it then still has to match generates something |
| Walker.FollowedInVainIff | c/grammar.h:312-330 | after any run, a byte is accepted although no word continues if and only if every stack that moves on it still has to match a symbol that generates nothing |
| Walker.RefusedIffNoContinuation | c/grammar.h:312-330 | corollary: when every rule generates something, a byte is refused if and only if no word continues with it |
| Walker.UselessRuleIsFollowed | c/grammar.h:312-330 | a grammar with a useless rule on which a byte is accepted although no word continues |
| Walker.GrState.Admissible | c/grammar.h:331-346 | the mask has exactly the bytes for which some stack has a terminal on top; the flag says whether the parse may end here |
| Walker.GrState.Forced | c/grammar.h:347-362 | every complete word begins with the span; a span shorter than the cap ends where no byte is the one way on: not exactly one can be consumed, the parse may end, or the walker would not survive it; the caller's state is unchanged |
| Sampling.DistSample | c/glm.c:4193-4199 | the scan, floor and fall-back loop return the token `Sample` specifies |
| Sampling.SampleSlice | c/glm.c:4193-4199 | a draw in (0,1) selects the token on whose slice of the unit interval it falls |
| Sampling.SlicesDisjoint | c/glm.c:4193-4199 | no draw lies on two tokens' slices, so slice length is selection probability |
| Sampling.MassExact | c/glm.c:4193-4199 | slice lengths are the probabilities, renormalised without the banned token when at least 1e-12 is left |
| Sampling.StepExactIff | c/glm.c:4293-4297 | accept with p(draft), else resample with the draft banned: reproduces p exactly if and only if the floor does not matter |
| Sampling.SingleStep | c/glm.c:4171-4197 | beside a weight held in single precision the floor never matters, so one step emits exactly p |
| Sampling.FloorBites | c/glm.c:4194 | real-valued weights only: a distribution on which the floor makes the step inexact |
| DistBuild.Softmax | c/glm.c:4177-4182 | a distribution; for an increasing exp it ranks as the logits do, and for the exponential two weights differ by the factor exp of their logits' difference over the temperature |
| DistBuild.Build | c/glm.c:4176-4191 | the softmax at the temperature, at least 0.0001, with the same ranks and ratios; with a nucleus in (0,1) its tokens from the top until their weight reaches the nucleus and not one more, in proportion; always a distribution |
| DistBuild.NucleusIsDist | c/glm.c:4183-4190 | cutting to the nucleus and renormalising keeps a distribution |
| DistBuild.NucleusIsTop | c/glm.c:4183-4190 | no kept token weighs less than a dropped one, the kept weight reaches the nucleus, and without its lightest token it would not |
| DistBuild.OrdTotal | c/glm.c:4184-4187 | summing along the sorted indices gives the whole mass |
| SpecTree.GreedyLossless | c/glm.c:4251-4328 | for any drafts, greedy speculation emits a prefix of one-token greedy decoding, and all of it when not interrupted |
| SpecTree.GreedyIs | c/glm.c:4251-4328 | one-token greedy decoding emits at every place the first greatest logit after what is out, no stop token, and ends early only where the next would be one |
| SpecTree.PlainChance | c/glm.c:4251-4328 | plain sampling emits a sequence with the product of its tokens' weights, times the weight of stopping there if it is shorter than asked for; stop tokens and longer sequences have probability 0 |
| SpecTree.SpeculativeSamplingExact | c/glm.c:4251-4328 | with single-precision weights, any drafts depending on everything so far, any stop tokens and any n_new, every token sequence has the probability plain autoregressive sampling gives it |
| SpecTree.ExactStepsSuffice | c/glm.c:4251-4328 | the same for real-valued weights on which every step is exact |
| SpecTree.InvisibleIff | c/glm.c:4251-4328 | real-valued weights, tokens that never stop: speculation is invisible in every state of the verification loop if and only if every step is exact |
| SpecTree.OneStep | c/glm.c:4293-4297 | one draft token and one token to go emit t with the mass of the accept-or-resample step |
| SpecTree.Clamp | c/glm.c:4281-4283 | the longest prefix of the draft within n_new and the context |
| SpecTree.InterruptEnds | c/glm.c:4268-4322 | once the interrupt flag is raised nothing more is picked: at most the draft under verification still goes out |
| Forward.LogitsIs | c/glm.c:3814-3880 | the logits are those of any pass through the layers in which every position attends to the rows of the positions up to itself |
| Forward.Causal | c/glm.c:3734-3811 | hidden state and cache row of a position depend on the tokens up to it only |
| Forward.ReadOk | c/glm.c:3814-3880 | whatever stale rows the cache holds, the rows a batch row reads are those its own sequence determines |
| Forward.Cache.ForwardLayer | c/glm.c:3734-3811 | every batch row caches its key and attends over the cached rows of its slot up to itself; whatever stale rows there are, the result is the next layer's input of its own sequence, and only the batch's positions change |
| Forward.Cache.LayersForward | c/glm.c:3814-3880 | after all layers every batch row holds its own sequence's output and its position is cached in every layer |
| Forward.Cache.Step | c/glm.c:3935-3947 | the logits and cache rows are those of history plus new tokens; other slots keep their rows |
| Forward.Cache.StepAll | c/glm.c:3950-3961 | one row of logits for every prefix of the batch of at most 64; rows beyond the history may be stale |
| Forward.Cache.StepDecodeBatch | c/glm.c:3965-3997 | accepted exactly when rows are 1 to 64, kv_lora at most 512, tokens and positions in range, every layer's buffers there and its kv_start in [0,pos], and slots distinct; then every row gets its own sequence's logits, and a refused batch changes nothing |
| SpecDecode.PickTok | c/glm.c:4202-4206 | the argmax, or the sampled token with the ban excluded |
| SpecDecode.AcceptTok | c/glm.c:4293-4296 | a draft is accepted when it is the argmax, or when a draw falls below its probability |
| SpecDecode.VerifyDraft | c/glm.c:4291-4301 | every draft token of the accepted prefix is the first greatest logit, or its draw falls below its probability, and the next one is refused and banned or stops the run; emitted tokens, ban and stop flag are those the verification tree dictates |
| SpecDecode.Turn | c/glm.c:4264-4322 | one iteration emits a prefix of what is left of the tree, and history, cache and logits row agree again |
| SpecDecode.Decode | c/glm.c:4251-4328 | emits exactly what the tree says; `kv_out - kv` is `emitted`, or `emitted - 1` when the budget ends; the cache holds the returned history and no other slot is touched |
| SpecDecode.HoldsPrefix | c/glm.c:4318 | cached rows of a common prefix are valid for any continuation of it |
| Quant.AddRow | c/glm.c:2251-2261 | adds coef times the dequantised row for formats 0 to 3, odd widths included |
| Quant.MatvecRows | c/glm.c:2263-2277 | each output is the inner product with the dequantised row, although the scale is applied after the sum |
| Attention.SoftmaxOf | c/glm.c:1298-1299 | max, exponentials and normalisation compute the softmax |
| Attention.SoftmaxIs | c/glm.c:1298-1299 | the softmax has positive weights that sum to 1, ranks as the logits for an increasing exp, and has the exponential's ratios |
| Attention.AbsorbedScore | c/glm.c:2580-2583 | (W_K^T q) . L equals q . k_nope for the reconstructed key |
| Attention.AbsorbedValue | c/glm.c:2580-2583 | projecting the latent mix equals mixing the reconstructed values |
| Attention.HeadOutIs | c/glm.c:2694-2727 | rebuilding keys and values and mixing them by the softmax of the scores is standard attention over the whole keys, rotary part included |
| Attention.AbsorbHead | c/glm.c:2660-2686 | the absorbed branch computes standard attention: logits are the scaled inner products of the whole query with rebuilt key and rotary key, the output mixes the rebuilt values by their softmax |
| Attention.ReconstructHead | c/glm.c:2694-2727 | the reconstructing branch computes the same standard attention |
| Dsa.TopKeep | c/glm.c:2568-2575 | exactly keep distinct positions in range, each scoring at least as high as every position left out |
| Dsa.OrderIrrelevant | c/glm.c:2669-2686 | permuting the position list leaves the head output unchanged |
| Dsa.KeepAllIsDense | c/glm.c:2544-2576 | when keep is the context length, sparse attention equals dense attention although the list is permuted |
| Experts.LruBounded | c/glm.c:3256-3262 | in every good bank a layer's LRU holds at most min(cap, unpinned experts) slots |
| Experts.ChosenEvict | c/glm.c:3260 | the least recently used cell is none of those just filled, and eviction stays in order of last use |
| Experts.ExchangeOwned | c/glm.c:3261 | exchanging two slots leaves every buffer with exactly one owner |
| Experts.PromotedLru | c/glm.c:3256-3262 | after promotion the layer's ids are distinct, disjoint from the pins and correctly labelled |
| Experts.WsLoaded | c/glm.c:3111-3112 | a load into a working slot, allocating its buffer if it has none, keeps the bank good |
| Experts.Stamped | c/glm.c:3038 | stamping a hit keeps the bank good |
| Moe.Select | c/glm.c:2891-2895 | top-k routing yields k distinct experts, none scoring below one left out |
| Moe.PicksUnique | c/glm.c:2891-2895 | ties go to the lowest expert: the scores determine the list |
| Moe.GatesShare | c/glm.c:2803-2917 | each gate is to the sum of the gates as its expert's score, the bias left out, is to the sum of the selected scores; normalised gates share out the model's scale |
| Moe.RouteIs | c/glm.c:2799-2917 | a position gets as many experts as the model asks for, or the run's smaller cap, none with a lower biased score than one left out; its gates are in proportion to the unbiased scores and scaled, normalised ones add up to the scale but for 1e-20, and not all are zero |
| Moe.Route | c/glm.c:2799-2917 | every position of a batch is routed so by its own scores, which makes the batch valid |
| Moe.Union | c/glm.c:2944-2950 | the distinct ids of the batch, all of them and no others |
| Moe.PartStep | c/glm.c:3171-3205 | one more expert adds its weighted output exactly at the positions routed to it |
| Moe.RunExpert | c/glm.c:3171-3205 | gather, run and scatter of one expert extend every position's partial sum by it |
| Moe.Pool.constructor | c/glm.c:1510-1519 | empty LRUs over good pins form a good bank |
| Moe.Pool.Resolve | c/glm.c:3031-3041 | every block entry refers to a slot with its id or to the next working slot; the misses are exactly the ids resident nowhere; exactly the cells hit are stamped, later than anything before |
| Moe.Pool.Load | c/glm.c:3104-3114 | every missed expert is loaded whole into its working slot |
| Moe.Pool.Holding | c/glm.c:3158-3168 | the slot read for an expert holds that expert's weights of this layer |
| Moe.Pool.Promote | c/glm.c:3256-3262 | the last min(nmiss, cap) misses are resident afterwards; free cells are used first, evicted slots were used no later than kept ones, ids stay distinct, buffers keep one owner, other layers are untouched |
| Moe.Pool.Block | c/glm.c:3031-3262 | a block adds exactly its experts' contributions and keeps the bank good |
| Moe.Pool.Moe | c/glm.c:2944-3302 | each position gets the sum of its weighted experts plus the shared expert, for any pins, LRU contents, stamps and block boundaries |
| Moe.CacheTransparent | c/glm.c:3031-3262 | in two runs over different batches, pools and places a position with the same input, ids and gates gets the same row |
| Moe.BatchIndependent | c/glm.c:2799-3302 | with the routing included: the input alone determines the row |
| Moe.Pool.Layer | c/glm.c:2799-3302 | routing and experts together give every position the gated sum of its own top experts plus the shared expert |
| Pilot.BeginInv | c/glm.c:3393-3409 | choosing, hiding and announcing a slot keeps the invariant |
| Pilot.FinishInv | c/glm.c:3411 | the end of the read outside the mutex, successful or not, keeps the invariant |
| Pilot.PublishInv | c/glm.c:3413-3423 | stamping, publishing and broadcasting keep the invariant |
| MoeSteps.PromotedOk | c/glm.c:3256-3262 | one promoted miss, at whatever clock, keeps labels distinct, contents as labelled and one owner a buffer |
| MoeSteps.StepKeeps | c/glm.c:3031-3262 | every single write of a block (stamped hit, load into a working slot, swap) keeps the bank good and other layers as they were, its misses stay resident nowhere in the layer, and no promotion swaps out a cell it has filled |
| MoeSteps.BlockPromotes | c/glm.c:3256-3262 | a block under interference ends with its last misses resident, as many as the layer has cells for |
| MoeSteps.OthersKeep | c/glm.c:3031-3262 | writes to other layers and a moved clock leave a block under way in order |
| Pilot.MainInv | c/glm.c:2753-2762 | reset, barrier, wake-up, every write of a block and exit of the main thread keep the invariant |
| Pilot.RunInv | c/glm.c:3393-3425 | in every interleaving the slots are good, counts match loads in flight, a load in flight targets a layer above the owned one or one the main thread waits for, and the block of moe under way stays in order |
| Pilot.MatmulSafe | c/glm.c:1255-1265 | while moe(l) runs, no load on l is in flight and every labelled slot of l holds its expert's weights in full |
| Pilot.NoLoadUntilReset | c/glm.c:2753-2762 | once moe(l) has passed its barrier, no load on l is in flight or starts until a forward resets ownership |
| Pilot.NoLostWakeup | c/glm.c:3420-3422 | a waiting main thread was woken, or the load it waits for is still to publish and will wake it |
| Pilot.DropsIff | c/glm.c:3393-3400 | a request is dropped exactly for a layer owned or passed or an expert resident there |
| Pilot.LoadLands | c/glm.c:3393-3425 | from every good state an idle worker can load any absent expert into a layer not yet reached: into a free cell or a least recently used one, labelled, whole, stamped last, counted in, nothing else moved |
| Pilot.WaitEnds | c/glm.c:2753-2762 | from every good state a waiting main thread can get past its barrier |
| Pilot.EntersMoe | c/glm.c:2753-2762 | the next layer with a router, or the layer again, can be entered and its barrier passed |
| Pipe.MainInv | c/glm.c:2192-2210 | every store of a dispatch and every wait keeps the invariant of quiet runs |
| Pipe.StepInv | c/glm.c:2138-2162 | every worker step outside the window keeps it |
| Pipe.ExactlyOnce | c/glm.c:2202-2210 | once pipe_wait(k) has returned, slot k holds its own generation's job, was read exactly once, and no worker holds it |
| Pipe.AloneInDispatch | c/glm.c:2117-2121 | no worker is between its winning exchange and its ready store when a dispatch starts or anywhere in its window |
| Pipe.NoLostWakeup | c/glm.c:2142-2145 | a worker asleep on an old generation has its broadcast still to come, and wakes to see the new one |
| Pipe.QuietLively | c/glm.c:2138-2210 | in every quiet run no worker sleeps, or is about to, beside an ungrabbed job, and every grabbed slot is ready or held |
| Pipe.BatchCompletes | c/glm.c:2138-2210 | from every state a quiet run reaches inside a batch, workers and main thread can complete it: no deadlock |
| Pipe.LongerCanRace | c/glm.c:2192-2199 | from any state of a quiet run with a worker not at rest, a longer batch can mark any of its extra slots ready with the old job in it |
| Pipe.ShorterIsSafe | c/glm.c:2150 | a batch no longer than the last, or dispatched while every worker rests, keeps the invariant in every interleaving of its dispatch |
| Pipe.SameIsSafe | c/glm.c:2138-2200 | when every extra slot of a batch carries its new job already, no interleaving of its dispatch, wins inside the window included, makes a slot ready with a wrong job |
| Pipe.SafeIff | c/glm.c:2138-2200 | every interleaving of a dispatch is safe if and only if every worker is asleep or about to sleep on the current generation, or every slot the batch has beyond the last one carries its new job already |
| Pipe.RaceReachable | c/glm.c:2138-2210 | a run from every initial state with a worker ends with a slot that reads as ready and holds the wrong job |
| Pipe.NeverLongerIsQuiet | c/glm.c:2138-2210 | a run whose batches grow only while every worker rests, the first one apart, has no win inside a window |
| Ring.ProducerInv | c/glm.c:3579-3585 | each load and store of the producer keeps the ring's invariant |
| Ring.ConsumerInv | c/glm.c:3503-3514 | each load and store of the consumer keeps it, and the consumer goes idle exactly when nothing is unread |
| Ring.DropsIffFull | c/glm.c:3579-3585 | in every run an entry is dropped if and only if 4096 were unread when the producer looked |
| Ring.RingCorrect | c/glm.c:3387-3388 | in every run the consumed entries are a prefix of the enqueued ones in order, unread entries are not overwritten, and the wrapped 32-bit distance is the true one, at most 4096 |
| Serve.LedgerEnd | c/glm.c:4886-4899 | ending a live request keeps every accepted request live in one slot or ended once |
| Serve.LedgerAccept | c/glm.c:4955-4963 | accepting one does too |
| Serve.EveryRequestEnds | c/glm.c:5007-5050 | when no slot is active, every accepted request has exactly one ending, within its maximum, each token picked from its own sequence's logits, and a greedy one not cut short has exactly what single-sequence decoding emits |
| Serve.EmitOk | c/glm.c:5042-5046 | writing the picked token into the history keeps the request on its single-sequence path and its indices below maxctx |
| Serve.Server.constructor | c/glm.c:4851-4861 | contexts that start with the conversations their files gave, or empty, make a good server with no active request |
| Serve.Server.Prefill | c/glm.c:4946-4954 | after reuse of the longest common prefix the cache, history and logits are those of a fresh prefill of the prompt; the file keeps the longest common prefix of what it held and the prompt |
| Serve.Server.Submit | c/glm.c:4933-4968 | refused exactly for a bad or busy slot, a duplicate id or an empty prompt; otherwise one more accepted request, live in the slot or ended whole by its first token, with the id, temperature and nucleus submitted and the lesser of the tokens asked for and the context's room; the other slots untouched |
| Serve.Server.Cancel | c/glm.c:4909-4920 | ends the active request with the id, if there is one, and nothing else |
| Serve.Server.Interrupt | c/glm.c:5004-5008 | ends exactly the active requests |
| Serve.Server.Settle | c/glm.c:5040-5047 | the picked token goes out, or the request ends whole with its own id, maximum, temperature and nucleus; the slot is good again |
| Serve.Server.DecodeRound | c/glm.c:5031-5049 | every active slot gets one more token or ends, and keeps its id, maximum, temperature and nucleus; idle slots stay; the batch fails exactly when a slot is active and kv_lora exceeds 512 |
| Serve.Server.Serve | c/glm.c:5003-5050 | for any sequence of frames and interrupts the loop ends with no active request, unless kv_lora exceeds 512; every ended request was served with the id, prompt, maximum, temperature and nucleus of its own submission, and every submission is one of the frames |
| KvFile.PackRoundTrip | c/glm.c:4794-4804 | a packed record reads back field by field as it was |
| KvFile.TornPrefix | c/glm.c:4793-4808 | if no complete counted record lies beyond the writer's count, a crash after any byte of the stream leaves a prefix of the new history |
| KvFile.CrashSafeIff | c/glm.c:4782-4810 | every crash of every append leaves a prefix of the new or the old history if and only if no complete counted record lies beyond disk_nrec |
| KvFile.CrashSafeAtIff | c/glm.c:4782-4827 | the same through the load at one context length: also safe when that length refuses the stale count |
| KvFile.RefusedThenLonger | c/glm.c:4782-4827 | a load refused for length, an append cut short, and a load at a longer context: it reads neither the new nor the saved history, and the shorter context reads nothing |
| KvFile.LoadsLastHistory | c/glm.c:4771-4861 | over any number of sessions, each cut by a crash at any byte of an append or stopped, with truncates to at most the records written, appends, failed opens and refused starts, the writer's records are the history's; once the file has caught up the load is exactly the history in memory and the next append is crash-safe |
| KvFile.CrashLosesNothing | c/glm.c:4782-4861 | in any session the start after a crash loads a history that extends the one the file held and is a prefix of the one being written |
| KvFile.NothingInvented | c/glm.c:4771-4861 | as long as no crash falls where a complete counted record lies beyond disk_nrec, no session loads anything but a prefix of a history it was given |
| KvFile.Start | c/glm.c:4813-4861 | a start reads what `Loaded` says and knows the complete counted records, none if the file is foreign, empty or too long |
| KvFile.TruncateAbove | c/glm.c:4771-4780 | truncating above the stored count loads the history exactly when no complete stale record follows it |
| KvFile.Disk.Append | c/glm.c:4782-4811 | the file after each record written is the torn state of the append with the old counter; at the end records and counter are in place; nothing changes when the file cannot be opened |
| KvFile.Disk.Truncate | c/glm.c:4771-4780 | only counters change: both to n, or disk_nrec alone to 0 when the file cannot be opened |
| KvFile.Disk.Load | c/glm.c:4813-4846 | the complete counted records, or nothing for a foreign, empty or too long file, which leaves disk_nrec alone |
| Kernels.Narrowings | c/glm.c:673-691 | wrapping instructions keep the low bits |
| Kernels.Saturates | c/glm.c:674-675 | 16-bit saturation keeps what fits and stops at the ends |
| Kernels.SignTrick | c/glm.c:674-675 | the unsigned magnitude of w times x with the sign of w is w * x, for w = -128 too |
| Kernels.MaddubsExact | c/glm.c:674-675 | no pair of products leaves 32512, so the 16-bit instruction does not saturate |
| Kernels.HsumExact | c/glm.c:658-666 | the shuffles add all eight lanes |
| Kernels.FourStep | c/glm.c:679-690 | an accumulator that takes four products a lane grows by their sum, and no lane wraps within 16384 columns |
| Kernels.DotI8 | c/glm.c:676-762 | the AVX2 kernel and its tail compute the scalar sum for every length up to 16384, in 32 bits |
| Kernels.MaskTrick | c/glm.c:680-689 | the magnitude of w as a byte times x negated under w's sign mask is w * x, for w = -128 too |
| Kernels.DotI8Vnni | c/glm.c:678-691 | the 512-bit int8 kernel and its tail compute the scalar sum |
| Kernels.FourMore | c/glm.c:717-727 | one turn of the unrolled loop keeps the four accumulators' sum equal to the dot product so far |
| Kernels.DotI8Sdot | c/glm.c:716-729 | four accumulators, their lane-wise sum, one accumulator and the tail compute the scalar sum |
| Kernels.Unpack16 | c/glm.c:806-808 | mask, shift and interleave yield the packed codes in order |
| Kernels.DotI4 | c/glm.c:764-886 | the AVX2 nibble kernel and its tail compute the scalar sum |
| Kernels.QuarteredSum | c/glm.c:769-772 | the permuted 128-bit blocks have the chunk's sum |
| Kernels.DotI4Vnni | c/glm.c:766-785 | the 512-bit kernel, with x permuted to match the unpack, computes the scalar sum |
| Kernels.DotI4Sdot | c/glm.c:819-839 | the nibble kernel with four accumulators computes the scalar sum |
| Packing.QrowI8 | c/glm.c:619-656 | every code lies within 127 and stands for its activation to half a step |
| Packing.QuantizeRow | c/glm.c:1112-1121 | the row read back as a matrix row has every weight to half a step of its scale |
| Packing.PackInt4 | c/glm.c:1124-1137 | every code read back, at odd lengths too, lies within qmax, and the row read back as a matrix row has every weight to half a step of its scale |
| Packing.PackInt2 | c/glm.c:1140-1153 | the same for four codes a byte, at any length |
| RamCap.CapMax | c/glm.c:5760-5778 | the greatest capacity up to n_experts whose slabs fit |
| RamCap.CapForRam | c/glm.c:5715-5822 | unless floored the capacity in force fits; with raising on it is the greatest that fits; floored exactly when not even one slot a layer does |
| RamCap.Monotone | c/glm.c:5761-5777 | a smaller capacity fits wherever a larger one does, so stopping at the first misfit is right |
| RamCap.LruFits | c/glm.c:5760-5778 | unless floored, the LRU slots of every good bank fit the memory the cap was computed for, the MTP row counted twice |
| RamCap.LruReached | c/glm.c:5760-5778 | the slab count is exact: layers as full as the capacity or their unpinned experts allow have just these slots |

## Left out

- Floating-point rounding: reals stand for floats, `exp` is any positive function, rounding to nearest an arbitrary choice within half. Kernel-family pinning, which only affects rounding, is not modelled.
- Draws are real numbers in (0,1); a draw of exactly 0, which the generator can return, is left to the measure-zero case.
- Weak memory: the three protocols are interleavings under sequential consistency.
- CUDA, Metal and io_uring paths, and the Windows and macOS shims.
- EXPERT_BUDGET and CACHE_ROUTE, which change the function computed; the TOPP reordering, which shortens a routed list.
- REPIN: pins are fixed for a run.
- The GBNF text parser around `gr__postfix`: rules arrive as symbol lists. Allocation failures of the parser.
- Walker.GrState.Normalize: character bitmaps are sets of bytes, and frames hold 16-bit numbers, so grammars with longer alternates or more rules than fit are excluded.
- Postfix.Grammar.Apply: the only failure modelled is the rule limit.
- The MTP cache row and hidden state; a draft is any function of the history of events, so MTP, n-gram and grammar drafts are all covered.
- Forward.Cache.StepDecodeBatch: layer maths are parameters, cached rows a map by slot, layer and position; a slot's latent, rotary and index buffers of a layer are one.
- Attention.ReconstructHead: the kv_b product is exact; the source's matmul may quantise the activations there.
- SpecTree.SpeculativeSamplingExact: the single-precision weights of a distribution sum to exactly 1; the rounding of the softmax is not modelled.
- Loops of one source function are split over several methods where a single one is costly to verify; matrix rows are sequences, not offsets into one buffer.
- DistBuild.Build: the library sort is an oracle that returns the indices in descending order. Dsa.TopKeep takes the sorted scores the same way.
- The computation of the sparse-selection scores and the rotary embedding: scores and rotary keys are inputs.
- Moe.Pool.Moe: an expert, its SwiGLU included, is one function of layer, id and input; the shared expert likewise.
- Moe.Route: the router's matrix product and sigmoid are one positive function of the input; its statistics are not modelled.
- Pilot.BeginInv: a capacity of zero is excluded; the source would index an empty slot array there.
- Pilot: a single worker, as without io_uring. The reads of the matrix products are no steps of their own; MatmulSafe holds of every state they may fall in.
- Moe.Pool.Promote: the order of eviction is stated for a block that runs alone; with the clock moved in between, MoeSteps takes the oldest cell swap by swap and shows that it is none just filled.
- Pipe: a failed read, which ends the process. The index part of the cursor stays at most 64, so its carry into the generation is not modelled.
- Serve.Server.Submit: frames arrive parsed and tokenised; output text, statistics and the poll of stdin are not modelled. The file of a slot is the history its counter covers; its bytes are in KvFile.
- Serve.Server.Serve: the single-session server and its RESET and MORE commands.
- KvFile: the four-byte counter is written in one piece, and the operating system keeps the order of the flushed writes.
- Kernels: the 128-bit VNNI, plain NEON and VSX kernels, the two-row SMMLA tiles and the matrix loops around the kernels; the vector form of the quantiser, which rounds as the scalar one does.
- RamCap.CapForRam: the estimate of the reserves is an input, and the refusal to start when even the floor exceeds physical memory is not modelled.
