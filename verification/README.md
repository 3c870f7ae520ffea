# Verified models of the cutile-rs host runtime

This project models the host-side parts of cutile-rs whose correctness is argued in comments rather than visible in
one function, and proves those arguments:

- **Completion slots** (`SlotProtocol`, `SlotSafety`, `SlotProgress`, `SlotScan`, `Words`, `SlotTable`). `SlotProtocol`
  is the step machine of any number of registrants, one scanner and a device writing flags at will, one step per atomic
  operation. `SlotSafety` has its invariants over whole runs, and `SlotProgress` shows that a landed slot is delivered by
  the next pass, and a condemned one by the end of its pass, under every interleaving. `SlotTable` is the code: words, payload cells, free list, counter, and the
  nested scan loops. Each of its methods is proved to be a run of the step machine, so the invariants hold of the table.
- **Interval analysis** (`Bits`, `Bounds`, `BoundsSoundness`). Signed 64-bit intervals with saturation, truncated
  division, residues and the two's-complement envelope of `& | ^`.
- **Canonical terms and predicates** (`Terms`, `Predicates`). Linear normal forms with overflow to `None`.
- **Persistent cubin cache** (`Bytes`, `EntryCodec`, `L2Key`, `Eviction`, `EvictionDraw`, `JitStore`, `CompileCache`,
  `DiskCache`). `DiskCache` shows that the file-system store behaves as the store `CompileCache` assumes.
- **Execute-once** (`ExecuteOnce`). The memoizing state under a mutex and condition variable, with FIFO streams and
  events, over every interleaving of calls.
- **Device futures** (`Submission`, `DeviceFuture`, `Wakeup`). The poll/drop object with its output and owner ledger,
  and the flag/waker hand-off as a step machine.
- **Graph capture** (`GraphCapture`) and the **stream-handle pool** (`StreamPool`).

`dafny verify dfyconfig.toml` checks everything.

## Premises

- Atomic operations are sequentially consistent.
- A slot is judged dead only if its flag write can no longer execute (`SlotProtocol.MayDie`, `SlotScan.Condemns`), as
  the comment at `cuda-async/src/reactor.rs` line 213 states of a sticky fault.
- SHA-256 is an arbitrary 32-byte function. It is assumed not to collide only in `CompileCache`, and only on the
  bytecodes in use. The codec and key results assume nothing about it.
- The compiler backend is a function of its fingerprint, the bytecode, the target and the options.
- A stream reports completion only of work that is over (`PollEnv.Honest`, `WaitEnv.Proves`).
- Answers of the driver, the file system, the clock and the random draw are parameters of the methods that ask for them.

## Where the code and its documentation differ

- `predicate.rs` lines 249-252 say that sign-canonical form makes `t` and `-t` unify. In `divisible_by` it acts on the
  reduced residue term, where it changes nothing: `Predicates.DivisibleSignMatters` shows two that stay apart and
  `Predicates.DivisibleSignIff` says exactly when they unify.
- `runtime.rs` lines 530-537 and 553-561 say that the last owned device of an ordinal discards the pool entry. The code
  discards it when any owned device of the ordinal drops: `StreamPool.EarlyDiscard` is a run in which a first device's
  drop gives up a handle while a second device is usable, `StreamPool.DropKeepsPoolIff` says that a drop spares the entry
  exactly when it is empty, and `StreamPool.OrphansAfterDeviceIff` says exactly when a dropped device leaves such handles
  behind: while something else retains the context and there is, or was pooled, a handle to leave.
- `put` in `jit_cache.rs` declines only what could never be retained. A strictly newest entry it accepts is still
  deleted by its own eviction when older entries cannot be removed: `JitStore.PutCanLoseItself` is such a call and
  `JitStore.FreshFileLostIff` the exact condition.
- The layout table at `jit_cache.rs` lines 782-793 has three padding bytes from offset 85. The code stores the flags in
  byte 85, validates them, and pads with the two bytes after it: `EntryCodec.EncodingLayout`.

## Model

| member | source | states |
|---|---|---|
| SlotSafety.StepInv | cuda-async/src/slot_table.rs:92-205 | every atomic step of a registrant, the device or the scanner keeps the protocol invariant |
| SlotSafety.PathInv | cuda-async/src/slot_table.rs:92-205 | the invariant holds after every finite interleaving |
| SlotSafety.SlotsPartitioned | cuda-async/src/slot_table.rs:92-120 | each slot is in exactly one of free, claimed, armed, retired-not-recycled, and no two registrants hold the same one |
| SlotSafety.SnapshotArmed | cuda-async/src/slot_table.rs:156-176 | every slot left in the scanner's snapshot is still armed, has its payload, and is not the one in hand |
| SlotSafety.NoEmptyTake | cuda-async/src/slot_table.rs:170-193 | the scanner looks at or takes a payload only while it is present |
| SlotSafety.DeliveredOnce | cuda-async/src/slot_table.rs:182-193 | no payload leaves the table twice, and `woken` gets only registrations whose own device write landed |
| SlotSafety.PublishedConserved | cuda-async/src/slot_table.rs:118-193 | a published payload is in exactly one of armed, in the scanner's hand, woken, dead |
| SlotSafety.CounterExact | cuda-async/src/slot_table.rs:118-125 | `n_armed` is set bits plus registrants between increment and bit plus retirements not yet subtracted, so the subtraction never underflows |
| SlotSafety.CommitsIffIdle | cuda-async/src/reactor.rs:153-168 | the scanner commits to parking exactly when nothing is armed and no registrant is between its count and its bit |
| SlotSafety.NoLostWakeup | cuda-async/src/reactor.rs:143-168 | a scanner committed to park while something is armed has its token set or is owed an unpark |
| SlotSafety.SleepsOnlyWhenIdle | cuda-async/src/reactor.rs:153-168 | when no registration is in progress, a sleeping scanner without a token leaves nothing armed, every slot free and everything published delivered |
| SlotSafety.ListsGrow | cuda-async/src/reactor.rs:142-150 | deliveries are never revoked along a run |
| SlotProgress.StepDue | cuda-async/src/slot_table.rs:153-205 | no step of anyone loses a landed registration the scanner is still to come to |
| SlotProgress.DeliveredByNextPass | cuda-async/src/slot_table.rs:153-205 | a registration armed with its write landed before a pass begins is in `woken` once a pass has walked every word, however registrants, device and scanner interleave |
| SlotProgress.CondemnedByPassEnd | cuda-async/src/slot_table.rs:175-193 | once a probe has judged an armed slot dead, its payload is in `dead` when the pass has walked every word, however registrants, device and scanner interleave |
| SlotScan.ExamineRun | cuda-async/src/slot_table.rs:164-193 | looking at one snapshot bit, and retiring the slot if its flag landed or a probe finds it dead, is a run of the protocol |
| SlotScan.PassIs | cuda-async/src/slot_table.rs:153-194 | a whole pass clears exactly the bits and cells of the slots it retires and appends their payloads to `woken` and `dead`; which slots those are is `RetiredIff` |
| SlotScan.RetiredIff | cuda-async/src/slot_table.rs:164-193 | an armed slot is retired exactly when its flag landed, or the pass probes and the payload is dead |
| SlotScan.HandedOut | cuda-async/src/slot_table.rs:182-193 | in slot order and once each, the payloads whose flag landed go to `woken`, and those probed, dead and not landed go to `dead` |
| SlotScan.PassTakes | cuda-async/src/slot_table.rs:153-194 | the same of a pass started on a table, probing or not: freed slots in ascending order, exactly the landed and the lost ones |
| SlotScan.RetireesAscend | cuda-async/src/slot_table.rs:182-185 | slots are retired in strictly ascending order |
| SlotScan.FinishRun | cuda-async/src/slot_table.rs:196-203 | recycling then subtracting is a run of the protocol, and the counter covers what is subtracted |
| SlotScan.DispatchRun | cuda-async/src/reactor.rs:142-188 | signalling everything woken and waking everything faulted is a run of the protocol |
| Words.LeastMember | cuda-async/src/slot_table.rs:164-166 | trailing zeros and `bits & (bits - 1)` take exactly the least member off a word's set |
| Words.AddMember | cuda-async/src/slot_table.rs:123-123 | `fetch_or(1 << b)` adds exactly one member to the bitmap |
| Words.DropMember | cuda-async/src/slot_table.rs:183-183 | `fetch_and(!(1 << b))` removes exactly one member |
| SlotTable.Table.constructor | cuda-async/src/slot_table.rs:63-76 | a new table is the initial protocol state |
| SlotTable.Table.Claim | cuda-async/src/slot_table.rs:92-94 | pops the free list, or reports exhaustion, as the claim step |
| SlotTable.Table.Release | cuda-async/src/slot_table.rs:98-100 | gives a refused slot back, as the release step |
| SlotTable.Table.ResetFlag | cuda-async/src/slot_table.rs:104-106 | clears the slot's flag, as the reset step |
| SlotTable.Table.Reserve | cuda-async/src/reactor.rs:236-241 | claims a slot and clears exactly its flag, or reports exhaustion |
| SlotTable.Table.StoreCell | cuda-async/src/slot_table.rs:119-121 | puts the payload in its cell, as the step after the device write is queued |
| SlotTable.Table.Count | cuda-async/src/slot_table.rs:122-122 | increments the counter, as the step after the payload and before the bit; true exactly from zero |
| SlotTable.Table.SetActive | cuda-async/src/slot_table.rs:123-123 | sets exactly the slot's bit, as the step after the count |
| SlotTable.Table.Publish | cuda-async/src/slot_table.rs:118-125 | payload, count and bit in that order, with nothing else changed; true exactly on the idle-to-active transition |
| SlotTable.Table.IsIdle | cuda-async/src/slot_table.rs:81-83 | true exactly when no bit is set, no registrant is between count and bit, and no retirement is unsubtracted |
| SlotTable.Table.ScanBits | cuda-async/src/slot_table.rs:157-195 | the inner loop looks at exactly the armed slots of one word, lowest first |
| SlotTable.Table.Recycle | cuda-async/src/slot_table.rs:198-198 | appends what was retired to the free list, as the step before the subtraction |
| SlotTable.Table.Subtract | cuda-async/src/slot_table.rs:201-202 | the counter is at least what is subtracted |
| SlotTable.Table.ScanInner | cuda-async/src/slot_table.rs:153-205 | a pass frees and uncounts exactly the armed slots whose flag landed, or that it probed and found dead; it hands out the first as woken and the others as dead, in slot order; the counter covers the subtraction, and the pass is a run of the protocol |
| SlotTable.Table.Register | cuda-async/src/reactor.rs:232-260 | an error leaves everything but the refused slot's cleared flag as it was; success arms one slot with a queued write; the park token is set exactly on the idle-to-active transition and otherwise untouched; a run of the protocol |
| Bits.ApplyBit | cutile-compiler/src/bounds.rs:333-343 | the integer model of `& \| ^` acts bit by bit |
| Bits.ApplyFits | cutile-compiler/src/bounds.rs:333-343 | operands that fit a word give a result that fits it |
| BoundsSoundness.DivCeilExact | cutile-compiler/src/bounds.rs:99-112 | the ceiling division is the ceiling of the exact quotient clamped to i64, `MIN / -1` included |
| BoundsSoundness.CeilIsCeiling | cutile-compiler/src/bounds.rs:99-112 | the ceiling is the least integer not below the exact quotient |
| BoundsSoundness.TruncatedDivision | cutile-compiler/src/bounds.rs:259-281 | quotient and remainder recompose to the dividend, and no other pair does with a remainder smaller than the divisor and signed like the dividend |
| BoundsSoundness.ClampNearest | cutile-compiler/src/bounds.rs:141-163 | saturation gives the nearest i64 |
| BoundsSoundness.CornersSuffice | cutile-compiler/src/bounds.rs:288-311 | a function monotone along each axis takes its extremes at the four corners |
| BoundsSoundness.CornerSound | cutile-compiler/src/bounds.rs:139-257 | for add, sub, mul, div, ceil-div, min, max and the orderings, every clamped exact result of members is inside the corner interval |
| BoundsSoundness.CornerTight | cutile-compiler/src/bounds.rs:288-311 | both ends of the corner interval are attained by members |
| BoundsSoundness.EqualitySound | cutile-compiler/src/bounds.rs:397-420 | the 0/1 value of an equality of members is inside its interval |
| BoundsSoundness.EqualityTight | cutile-compiler/src/bounds.rs:397-420 | both ends of an equality's interval are the value of some pair of members |
| BoundsSoundness.RemSound | cutile-compiler/src/bounds.rs:259-281 | every truncated remainder of members, as `TruncatedDivision` fixes it, is inside the residue interval, divisor `i64::MIN` included |
| BoundsSoundness.RemNarrow | cutile-compiler/src/bounds.rs:259-281 | the residue interval exceeds neither the largest residue nor the dividend, and keeps its sign |
| BoundsSoundness.RemTight | cutile-compiler/src/bounds.rs:259-281 | when the dividend may be zero, both ends of the residue interval are reached |
| BoundsSoundness.NonNegSound | cutile-compiler/src/bounds.rs:326-352 | bitwise results of non-negative members are inside the all-ones branch |
| BoundsSoundness.BitwiseNonNegNarrow | cutile-compiler/src/bounds.rs:336-351 | the all-ones end is the least one that covers both operands |
| BoundsSoundness.BitwiseSignedNarrow | cutile-compiler/src/bounds.rs:353-369 | the envelope is the narrowest two's-complement type that holds all four ends |
| BoundsSoundness.SignedSound | cutile-compiler/src/bounds.rs:353-369 | bitwise results of signed members are inside the k-bit envelope |
| BoundsSoundness.BitwiseSound | cutile-compiler/src/bounds.rs:326-369 | for all well-formed intervals and members, every bitwise result is inside, through all three branches, and the result is well-formed |
| BoundsSoundness.NoBoundsIff | cutile-compiler/src/bounds.rs:372-434 | exactly which operations give no bounds; a divisor interval containing zero always does |
| BoundsSoundness.BopSound | cutile-compiler/src/bounds.rs:372-434 | whenever bounds are given they are well-formed and hold the meaning of the operation on all members; `TruncatedDivision`, `CeilIsCeiling` and `ElementaryMeaning` fix the meanings |
| BoundsSoundness.ElementaryMeaning | cutile-compiler/src/bounds.rs:372-434 | what each operation means on two numbers |
| BoundsSoundness.ExactStaysExact | cutile-compiler/src/bounds.rs:372-434 | exact operands give an exact interval, for every operation that gives one |
| BoundsSoundness.WrappedSumEscapes | cutile-compiler/src/bounds.rs:141-163 | a wrapping sum can leave the interval |
| BoundsSoundness.WrappedSumIff | cutile-compiler/src/bounds.rs:141-163 | wrapping sums stay inside exactly when no sum overflows or the sums span all of i64 |
| Terms.ComputeAdd | cuda-async/src/predicate.rs:202-216 | the merge loop computes the sum term, dropping zero coefficients, or reports overflow |
| Terms.ComputeScale | cuda-async/src/predicate.rs:218-247 | the negation and multiplication loops compute the scaled term or report overflow |
| Terms.AddExact | cuda-async/src/predicate.rs:202-216 | a sum term is canonical and denotes the exact sum |
| Terms.MulConstExact | cuda-async/src/predicate.rs:235-247 | a multiple is canonical and denotes the exact multiple |
| Terms.NegExact | cuda-async/src/predicate.rs:218-228 | a negation is canonical and denotes the exact negation |
| Terms.SubExact | cuda-async/src/predicate.rs:230-233 | a difference is canonical and denotes the exact difference |
| Terms.AddSomeIff | cuda-async/src/predicate.rs:202-216 | a sum is given exactly when some term with 64-bit numbers denotes it |
| Terms.MulConstSomeIff | cuda-async/src/predicate.rs:218-247 | a multiple, and so a negation, is given exactly when some term with 64-bit numbers denotes it |
| Terms.SubSomeIff | cuda-async/src/predicate.rs:230-233 | a difference is given exactly when it and the negation it goes through are both so denoted |
| Terms.SubRefusesZero | cuda-async/src/predicate.rs:230-233 | the smallest number less itself is refused, although zero denotes it |
| Terms.AffineExact | cuda-async/src/predicate.rs:162-173 | the affine constructor is canonical and denotes scale times atom plus offset |
| Terms.EqualIffSame | cuda-async/src/predicate.rs:140-247 | two canonical terms have equal value under every integer assignment if and only if they are structurally equal |
| Terms.AddConfluent | cuda-async/src/predicate.rs:202-216 | build order does not matter: sums that exist are equal in any order |
| Predicates.EqMeans | cuda-async/src/predicate.rs:318-321 | an equality predicate holds exactly when the exact values are equal |
| Predicates.NonzeroMeans | cuda-async/src/predicate.rs:323-327 | a nonzero predicate holds exactly when the exact value is not zero |
| Predicates.LtMeans | cuda-async/src/predicate.rs:329-339 | a strict-order predicate holds exactly when the exact values are so ordered |
| Predicates.LeMeans | cuda-async/src/predicate.rs:341-347 | an order predicate holds exactly when the exact values are so ordered |
| Predicates.FormedIff | cuda-async/src/predicate.rs:318-347 | each comparison is formed exactly when the differences it goes through fit |
| Predicates.SignCanonicalLeads | cuda-async/src/predicate.rs:249-271 | the sign-canonical form leads with a positive number |
| Predicates.ReduceRange | cuda-async/src/predicate.rs:349-369 | reduction leaves coefficients from 1 and a constant from 0 up to the divisor, exclusive |
| Predicates.ComputeReduce | cuda-async/src/predicate.rs:349-369 | the reduction loop takes every coefficient modulo the divisor and drops zeros |
| Predicates.DivisibleMeans | cuda-async/src/predicate.rs:349-369 | after reduction modulo the divisor, divisibility still means divisibility of the exact value |
| Predicates.EqSymmetric | cuda-async/src/predicate.rs:318-321 | equalities of the same two terms in either order are structurally equal when both exist |
| Predicates.NonzeroSignInvariant | cuda-async/src/predicate.rs:249-271 | a term and its negation give the same nonzero predicate |
| Predicates.DivisibleSignMatters | cuda-async/src/predicate.rs:249-271 | a term and its negation can give different divisibility predicates |
| Predicates.DivisibleSignIff | cuda-async/src/predicate.rs:349-369 | exactly when they give the same one |
| Predicates.ComputeEval | cuda-async/src/predicate.rs:288-296 | the evaluation loop computes the checked fold over the atoms in order |
| Predicates.EvalIff | cuda-async/src/predicate.rs:288-296 | evaluation gives a value exactly when every atom resolves and no step overflows, and then it is the exact value |
| Predicates.StageIsMax | cuda-async/src/predicate.rs:189-198 | a term's stage is the greatest stage of its atoms |
| Predicates.EvalPredicateIff | cuda-async/src/predicate.rs:371-399 | with a resolver covering the predicate's stage, overflow is the only reason for no answer, and an answer is the truth |
| EntryCodec.EncodeEntry | cutile-compiler/src/jit_cache.rs:817-841 | writes the entry field by field, or refuses names beyond the 16-bit length fields |
| EntryCodec.EncodingLayout | cutile-compiler/src/jit_cache.rs:781-841 | every field of an entry at its byte offset |
| EntryCodec.AcceptedIff | cutile-compiler/src/jit_cache.rs:849-887 | bytes are accepted for a request with a payload exactly when they equal its encoding outside the reserved and padding bytes |
| EntryCodec.RoundTrip | cutile-compiler/src/jit_cache.rs:817-887 | decoding an encoding gives the payload back |
| EntryCodec.OneRequest | cutile-compiler/src/jit_cache.rs:849-887 | no byte string is accepted for two requests |
| EntryCodec.OnlyWholeEntries | cutile-compiler/src/jit_cache.rs:849-887 | every strict prefix and every extension of an encoding is rejected for all requests, whatever the hash |
| L2Key.ComputeL2Key | cutile-compiler/src/jit_cache.rs:738-758 | feeding the hasher field by field hashes the domain tag and the six length-prefixed fields |
| L2Key.PreimageLayout | cutile-compiler/src/jit_cache.rs:738-758 | the hashed bytes: the domain tag, then version, tag, bytecode, target, options and fingerprint, each behind its 64-bit length |
| L2Key.ComputeHex | cutile-compiler/src/jit_cache.rs:765-773 | the printing loop gives two lowercase digits per byte |
| L2Key.HexReadsBack | cutile-compiler/src/jit_cache.rs:765-773 | reading the printed digits in base 16 gives the bytes back |
| L2Key.FlagsInjective | cutile-compiler/src/cuda_tile_runtime_utils.rs:626-630 | the flags byte determines each flag |
| L2Key.FlagBits | cutile-compiler/src/cuda_tile_runtime_utils.rs:626-630 | which bit each flag is, and that there are no others |
| L2Key.PreimageInjective | cutile-compiler/src/jit_cache.rs:719-763 | the hashed bytes determine version, bytecode, target, options and fingerprint |
| L2Key.SharedKeyIsCollision | cutile-compiler/src/jit_cache.rs:738-773 | two requests share a key only through a hash collision |
| L2Key.HexInjective | cutile-compiler/src/jit_cache.rs:765-773 | different bytes print differently |
| L2Key.DigestsNameFiles | cutile-compiler/src/jit_cache.rs:251-265 | every digest names a file, and different digests name different files |
| L2Key.PathOfIff | cutile-compiler/src/jit_cache.rs:251-265 | exactly the keys of 64 lowercase hex digits have a path, in the shard of their first two digits |
| L2Key.PathsStayInside | cutile-compiler/src/jit_cache.rs:251-265 | an accepted key yields a two-character shard and a file name holding the key, with no separator in either and no `.tmp.` in the name |
| Eviction.OrderSorts | cutile-compiler/src/jit_cache.rs:340-344 | the removal order has the same entries and total, oldest first |
| Eviction.SurvivorsStep | cutile-compiler/src/jit_cache.rs:346-355 | one removal takes exactly its own size off the running total |
| Eviction.SurvivorsAreUndeleted | cutile-compiler/src/jit_cache.rs:346-355 | what the total counts is exactly the listed entries not deleted |
| Eviction.MinimalPrefix | cutile-compiler/src/jit_cache.rs:336-355 | when removals succeed, the deleted entries are the shortest oldest-first prefix that brings the total to the target |
| Eviction.OldestFirst | cutile-compiler/src/jit_cache.rs:340-355 | nothing is deleted while something older and removable is kept |
| Eviction.NewestDeletedIff | cutile-compiler/src/jit_cache.rs:340-355 | the newest entry is deleted exactly when it is removable and what cannot be removed plus itself exceeds the target |
| Eviction.NewestKept | cutile-compiler/src/jit_cache.rs:401-417 | an entry within the target survives when every older one can be removed |
| Eviction.NewestMayGo | cutile-compiler/src/jit_cache.rs:346-355 | a removal pass can delete a newest entry that fits the target |
| Eviction.AlwaysTriggersIff | cutile-compiler/src/jit_cache.rs:460-468 | every draw triggers a scan exactly when the entry is at least a threshold long |
| Eviction.TriggersIff | cutile-compiler/src/jit_cache.rs:460-468 | exactly the first ceil(len * 2^64 / threshold) draws trigger a scan |
| EvictionDraw.DrawsEquallyLikely | cutile-compiler/src/jit_cache.rs:192-211 | version 4 nonces with one draw correspond one to one to those with any other, so the fold has no fixed bits |
| EvictionDraw.DrawBits | cutile-compiler/src/jit_cache.rs:206-211 | each bit of the draw is set exactly when the two halves differ there |
| EvictionDraw.LowHalfNeverFires | cutile-compiler/src/jit_cache.rs:192-211 | the low half alone would never trigger a scan for an entry of at most a 1024th of the threshold |
| EvictionDraw.FoldCanFire | cutile-compiler/src/jit_cache.rs:206-211 | the folded draw can trigger a scan for every non-empty entry |
| JitStore.Open | cutile-compiler/src/jit_cache.rs:164-184 | keeps what the directory holds; the low mark is at most the high mark, so a value the store accepts is never by itself over the high mark; unordered watermarks are refused |
| JitStore.FileSystemJitStore.Get | cutile-compiler/src/jit_cache.rs:376-396 | returns the stored bytes, refreshes the time on a hit when bounded, and changes nothing otherwise |
| JitStore.FileSystemJitStore.Delete | cutile-compiler/src/jit_cache.rs:484-490 | removes exactly that entry; a missing one is removed already; a failure changes nothing |
| JitStore.FileSystemJitStore.Scan | cutile-compiler/src/jit_cache.rs:292-334 | lists the entries found with their total size |
| JitStore.FileSystemJitStore.Remove | cutile-compiler/src/jit_cache.rs:345-355 | removes in order until the target is met, the total always being the size of the survivors |
| JitStore.FileSystemJitStore.Evict | cutile-compiler/src/jit_cache.rs:270-362 | does nothing below the high mark or without the lock, and otherwise deletes down to the low mark |
| JitStore.FileSystemJitStore.Put | cutile-compiler/src/jit_cache.rs:398-470 | declines what could never be retained, leaves the store alone on errors, alters no other entry, keeps a strictly newest accepted entry when the others can be removed, and says exactly when it loses it |
| JitStore.FreshFileKept | cutile-compiler/src/jit_cache.rs:398-417 | a strictly newest file within the target outlives a pass that can remove the rest |
| JitStore.FreshFileLostIff | cutile-compiler/src/jit_cache.rs:336-355 | a strictly newest file is deleted exactly when the total is over the high mark, the file is removable, and what cannot be removed plus itself exceeds the target |
| JitStore.PutCanLoseItself | cutile-compiler/src/jit_cache.rs:398-470 | for any two keys, a write that is accepted and newest and yet deletes its own entry |
| CompileCache.EntryServes | cutile-compiler/src/jit_cache.rs:817-887 | a written entry is served only to its own request and gives back what was written |
| CompileCache.WrittenIsHonest | cutile-compiler/src/cuda_tile_runtime_utils.rs:829-848 | what a compile writes serves no request for the bytecodes in use with anything but the compiler's output |
| CompileCache.StoredThenHit | cutile-compiler/src/cuda_tile_runtime_utils.rs:801-808 | a request repeated after a store is a hit |
| CompileCache.Compiler.Compile | cutile-compiler/src/cuda_tile_runtime_utils.rs:773-852 | gives what the direct compile gives whatever the store does, keeps the store honest, runs the backend exactly on a miss, and accounts every counter |
| CompileCache.Compiler.CompileEffects | cutile-compiler/src/cuda_tile_runtime_utils.rs:801-849 | what one compile does to the store and to each counter, for every way the lookup and the write-back can go |
| CompileCache.Compiler.Lookup | cutile-compiler/src/cuda_tile_runtime_utils.rs:802-830 | serves only what the direct compile gives, drops exactly what does not validate, and counts a hit or a miss |
| CompileCache.Compiler.WriteBack | cutile-compiler/src/cuda_tile_runtime_utils.rs:833-849 | writes exactly the encoded output when the store takes it, and accounts it |
| CompileCache.Compiler.RecompileAfterRejection | cutile-compiler/src/cuda_tile_runtime_utils.rs:892-909 | drops exactly that entry and compiles without looking at the store |
| CompileCache.Compiler.Session | cutile-compiler/src/cuda_tile_runtime_utils.rs:773-909 | over every sequence of requests, rejections, evictions and corrupt entries, every answer is the direct compile's and hits plus misses are the lookups made |
| DiskCache.AskDisk | cutile-compiler/src/jit_cache.rs:375-490 | what the file-system store answers to one compile is some weather, and its bytes follow the abstract store's less what the write evicted |
| DiskCache.CompileOnDisk | cutile-compiler/src/cuda_tile_runtime_utils.rs:773-852 | a compile against the file-system store gives what the direct compile gives and stays in step with the abstract store and its counters |
| ExecuteOnce.StepInv | cuda-async/src/device_operation.rs:705-782 | every critical section, submission, notification or wake keeps the invariant; what each leads to is `SettledAsRun`, `ExecutionSettles` and `LookAnswers` |
| ExecuteOnce.RunsOnce | cuda-async/src/device_operation.rs:714-731 | the operation is run at most once, and a caller that sees it pending still has its closure |
| ExecuteOnce.StateMonotone | cuda-async/src/device_operation.rs:618-638 | the state moves only from pending to running to settled |
| ExecuteOnce.SettledForGood | cuda-async/src/device_operation.rs:618-638 | over every run a settled outcome stays what it is |
| ExecuteOnce.SettledAsRun | cuda-async/src/device_operation.rs:714-782 | over every run from the start, the outcome is done exactly when the one execution recorded its event, having returned Ok, and failed exactly when it returned Err, panicked or could not record |
| ExecuteOnce.ExecutionSettles | cuda-async/src/device_operation.rs:732-782 | each way one execution can go, from inside the operation to the settled outcome |
| ExecuteOnce.LookAnswers | cuda-async/src/device_operation.rs:705-766 | every answer of one turn of the loop: run it, sleep, each error, or the value, with a wait put on another stream and a half removed exactly when handed out |
| ExecuteOnce.PanicFails | cuda-async/src/device_operation.rs:768-782 | a panic settles the operation as failed |
| ExecuteOnce.ReentryErrors | cuda-async/src/device_operation.rs:740-747 | in every reachable state no thread sleeps on its own execution; re-entering it is an error that changes nothing else |
| ExecuteOnce.NobodyLeftAsleep | cuda-async/src/device_operation.rs:698-752 | once settled, a sleeper implies that a notification is still owed, and that notification wakes it |
| ExecuteOnce.HalvesOnce | cuda-async/src/device_operation.rs:1365-1396 | each half of an unzipped pair is handed to at most one call |
| ExecuteOnce.ConsumersAreOrdered | cuda-async/src/device_operation.rs:593-616 | whatever is submitted on a consumer's stream after it got the value takes effect after all work of the producing run, in every schedule of FIFO streams and events |
| Wakeup.NoLostCompletion | cuda-async/src/device_future.rs:509-559 | a suspended task whose flag is set has been woken through its latest waker, or the signaller has yet to wake and will reach it |
| Wakeup.PollEndsIff | cuda-async/src/device_future.rs:509-559 | each look at the flag ends a later poll exactly when it is set, and the probe exactly when the stream has settled |
| Wakeup.RecheckMatters | cuda-async/src/device_future.rs:549-559 | whenever the signal overtakes the registration, the task comes to the second look with its flag set, its waker unwoken and the signaller done, and that look finishes it |
| Wakeup.SignalOvertakes | cuda-async/src/device_future.rs:549-559 | such a run exists |
| Submission.Submission.Retain | cuda-async/src/submission.rs:63-77 | takes the owner in, or drops it at once after completion |
| Submission.Submission.Complete | cuda-async/src/submission.rs:138-146 | releases everything held |
| Submission.Submission.Drop | cuda-async/src/submission.rs:79-87 | releases when nothing is held or the wait proves the work over, and leaks everything otherwise |
| DeviceFuture.SpinMeans | cuda-async/src/device_future.rs:462-483 | the spin answers with the first query that is not busy, or busy |
| DeviceFuture.FirstPollAnswers | cuda-async/src/device_future.rs:425-507 | exactly when the first poll gives each of its answers |
| DeviceFuture.DeviceFuture.Execute | cuda-async/src/device_future.rs:272-285 | takes and runs the operation at most once and stores its output |
| DeviceFuture.DeviceFuture.TakeCompletedResult | cuda-async/src/device_future.rs:287-295 | hands the stored result out and releases the owners |
| DeviceFuture.DeviceFuture.PollIdle | cuda-async/src/device_future.rs:425-507 | the first poll's answer from the lock, operation, spin and callback in order, with the output delivered or kept |
| DeviceFuture.DeviceFuture.PollExecuting | cuda-async/src/device_future.rs:508-560 | pending exactly when both looks find the flag clear and the stream is busy or capturing; the fault exactly when the first look finds it clear and the stream has faulted; the stored value otherwise |
| DeviceFuture.DeviceFuture.Poll | cuda-async/src/device_future.rs:405-571 | from each state, exactly which answer is given; the ledger is kept; the stored-result expectation never fails; ready exactly on the transition to complete; delivery only when the work is over |
| DeviceFuture.DeviceFuture.Drop | cuda-async/src/device_future.rs:307-387 | an undelivered output is dropped after a wait that proves the work over and leaked otherwise, reported unless the fault was delivered |
| DeviceFuture.Lifetime | cuda-async/src/device_future.rs:405-571 | over every sequence of polls and a drop: one run at most, one ready answer at most, and every output ends delivered, dropped or leaked, the first two only when the work is over |
| GraphCapture.AdoptCapture | cuda-async/src/cuda_graph.rs:120-140 | one resource per storage in order of first occurrence: its first write, or its first access if none writes |
| GraphCapture.OncePerStorage | cuda-async/src/cuda_graph.rs:117-119 | everything kept comes from the recording, no storage is kept twice, and the order is that of first use |
| GraphCapture.ReplayUnchanged | cuda-async/src/cuda_graph.rs:369-378 | replaying the kept resources acquires exactly what replaying the whole recording would, whatever is held already |
| GraphCapture.GraphExec.Update | cuda-async/src/cuda_graph.rs:308-324 | the context is kept whether or not the operation succeeded |
| GraphCapture.GraphExec.TakePending | cuda-async/src/cuda_graph.rs:379-383 | empties the pending list without losing a context |
| GraphCapture.GraphExec.Launch | cuda-async/src/cuda_graph.rs:369-394 | a launch that reaches the driver owns the graph, one lease per resource and every pending update context; one that fails earlier leaves them pending |
| GraphCapture.LeasesAre | cuda-async/src/cuda_graph.rs:369-378 | the leases held are one per resource |
| GraphCapture.ContextsAre | cuda-async/src/cuda_graph.rs:379-390 | the contexts taken over are held as often as they were pending |
| StreamPool.StepInv | cuda-core/src/runtime.rs:93-113 | every creation, drop and context release keeps the invariant |
| StreamPool.PoolSafe | cuda-core/src/runtime.rs:274-295 | in every reachable state no handle is held by two owned streams or by a stream and the pool, pooled handles belong to the context retained now, and a stream's handle is foreign exactly when its device is borrowed |
| StreamPool.HandlesHeldOnce | cuda-core/src/runtime.rs:684-711 | a stream's handle is in no other stream and no pool entry, and is foreign exactly when its device is borrowed |
| StreamPool.PooledHandlesAreCurrent | cuda-core/src/runtime.rs:562-567 | a pooled handle is alive in its ordinal's current context and in no other entry |
| StreamPool.DropOrphansPool | cuda-core/src/runtime.rs:93-106 | every drop of an owned device leaves unheld exactly what was unheld before plus the handles pooled for its ordinal |
| StreamPool.LastReleaseReclaims | cuda-core/src/runtime.rs:107-111 | the release that ends the context reclaims every handle of it |
| StreamPool.EarlyReleaseKeeps | cuda-core/src/runtime.rs:107-111 | a release that does not end the context takes no handle |
| StreamPool.DropKeepsPoolIff | cuda-core/src/runtime.rs:93-106 | a device drop spares the pool entry exactly when it is empty |
| StreamPool.OrphansAfterDeviceIff | cuda-core/src/runtime.rs:93-113 | a whole device drop leaves unheld handles exactly when something else retains the context and there were unheld or pooled handles |
| StreamPool.EarlyDiscard | cuda-core/src/runtime.rs:93-106 | a run from the start in which a first device's drop gives up a handle a second, usable device could have reused |
| StreamPool.ParkedThenReused | cuda-core/src/runtime.rs:274-295 | a stream parked by one owned device is what the next stream on any owned device of the ordinal gets, with the pool and the live handles as before |
| StreamPool.Runtime.NewOwnedDevice | cuda-core/src/runtime.rs:137-151 | retains the ordinal's context once more, a new incarnation exactly if nothing retained it |
| StreamPool.Runtime.NewDeviceStream | cuda-core/src/runtime.rs:274-295 | an owned device whose ordinal has parked handles gets the last of them and nothing is created; otherwise the stream is fresh and the pool untouched |
| StreamPool.Runtime.DropOwnedStream | cuda-core/src/runtime.rs:684-711 | appends the handle to the ordinal's entry on an owned device; on a borrowed one destroys it and leaves the pool alone |
| StreamPool.Runtime.DiscardPool | cuda-core/src/runtime.rs:94-106 | the first half of a device's drop empties the ordinal's entry |
| StreamPool.Runtime.Release | cuda-core/src/runtime.rs:107-111 | the second half gives the context up; its handles go exactly with the last retain |

## Left out

- Weak memory orderings: atomic steps are sequentially consistent.
- Driver calls, FFI bindings and the Tile IR bytecode writer: only their answers appear.
- Toolkit discovery, environment variables, process spawning, temporary files and file permissions.
- Wall-clock behaviour: spin budgets, probe intervals and the age of stale temporary files are arbitrary answers.
- Floating-point rounding of the watermarks: they are real numbers here.
- EvictionDraw: a nonce is its two little-endian halves; cutting it out of sixteen bytes is not modelled.
- The zip tuples, `IntoFuture` conversions and forwarding combinators: they only make calls.
- Conflict detection behind `AccessTracked`: a lease is only held and released.
- The thread-local execution lock: whether it is free is an answer given to the first poll.
- Shift bounds: the code gives none.
- CompileCache.Compiler.Compile: requests to one store are sequential; other processes act between them.
- SlotTable.Table.ScanInner: one call is a pass with nothing interleaved; interleavings are the subject of SlotSafety and SlotProgress.
- SlotScan.PassIs: likewise of an undisturbed pass; SlotProgress.DeliveredByNextPass is the statement under interference.
- ExecuteOnce: `take` is a half of a pair or a clone; other closures are not modelled.
- DeviceFuture.DeviceFuture.Drop: the future is taken to hold the last reference to its submission.
- StreamPool: an external owner keeps the context of a borrowed device alive as long as the device.
