# lisp-rlm: verified models of its hard parts

This project models, in Dafny 4.11, the parts of the lisp-rlm repository where branching, state and
arithmetic are dense, and proves what each of them is for. `dafny verify dfyconfig.toml` checks everything.

- **Gas and stack instrumentation** (`Wasm`, `WasmTyping`, `Instrument`, `InstrumentTheorem`, `InstrumentTyped`,
  `InstrumentEnds`, `InstrumentPass`, `InstrumentWhole`). A structured WebAssembly subset with a fuel-indexed interpreter; validation and its soundness; the
  code the pass inserts, by structure; the theorem that an instrumented function computes what the original computes and
  accounts exactly, that its module validates, and that metering ends runs; the pass as it is written, a two-cursor loop over flat operators with its errors; and the whole way
  from the written code section, which has one structured reading, to the run-time claim. Fee tables, charge tables, host
  functions and fuel are arbitrary.
- **Ladder pool v4** (`LadderPool`, `LadderRuns`, `LadderCalls`, `LadderLimits`). The contract's entry points and callbacks as a class,
  and a world of in-flight receipts, callbacks and refunds in which solvency, both token balances and the share sum
  are invariants over whole runs, with the exact condition for every withdrawal that breaks one. The solvency invariant
  carries a rounding slack per pending operation.
- **Limb arithmetic** (`Limbs`, `Cios`, `Poseidon`, `PoseidonLaws`, `Bn254`, `SecpField`, `SecpCurve`, `SecpScalar`).
  The carry, borrow and reduction loops of the Montgomery multiplier, the Poseidon permutation and the secp256k1
  code, each proved against plain integer arithmetic; the permutation in plain powers, the point
  formulas against chords and tangents, and scalar multiples against the bits of the scalar.
- **CLMM v5** (`ClmmMath`, `ClmmGrid`, `ClmmWalk`, `ClmmPool`, `ClmmValue`). Closed-form solvers against their defining inequalities and the
  reference searches, both walks, quotes against executed swaps, escrow, refund and value laws, over any positive
  nondecreasing grid.
- **JSON setter** (`JsonSet`, `JsonValue`). The byte scanner against an ordered-map update on member lists, for every
  value of the JSON grammar (RFC 8259).
- **Shared** (`Wrappers`, `ModArith`, `Ledger`). Options, remainders and floors, account sums.
- **Two contracts** (`Amm`, `Twap`). The constant-product market maker and the sliced-order engine as state machines.

Conventions. A trap or abort leaves the state unchanged. Where the original's 32-, 64- or 128-bit width can matter it
is written out (`Word64`, `TWO128`, limb bounds); other integers are unbounded. Promise outcomes, block heights, the
price grid, fee and constant tables, and token behaviour are parameters.

Where code and documentation disagree, the model follows the code:

- `swarmUp` credits Y for a cell that takes no X, `qarmUp` does not (fixtures/clmm_v5.ts:145 and :358), although the
  quote is documented as exact. `ClmmPool.QuoteIsSwapX` gives the exact condition and `ClmmPool.QuoteFallsShort` a quote
  one Y short on the code's own grid; `ClmmPool.FullRefundX` does the same for "full refund leaves the state unchanged",
  with `ClmmPool.RefundMovesPrice` as the failing case.
- Both walks round the input of a crossed or part-filled cell down, so a round trip can gain:
  `ClmmValue.RoundTripGains`, within the bound of `ClmmValue.RoundTrip`.
- `init` resets the range of cells and keeps their liquidity (fixtures/clmm_v5.ts:197), so a second one strands liquidity
  outside the range: `ClmmPool.SecondInitUncovers`, against `ClmmPool.RunCovers`.
- The constant `C127` of `sfdx` is 2^128 (fixtures/clmm_v5.ts:97), not 2^127 as its name and comment say.
- A withdrawal of the ladder pool can take the A that a pending payout's reversal needs, and `pay_out` then traps.
  `LadderRuns.StrandsIff` gives the exact test, `LadderRuns.HastyWithdrawalStrands` a failing run,
  `LadderRuns.CarefulNeverStrands` that passing the test at every withdrawal rules it out.
- The same withdrawal can leave slots worth more than the book once the payout fails: `LadderLimits.OverhangsIff` gives
  the exact test, `LadderLimits.HastyExitInsolvent` a failing run.
- A swap that is paid the whole book leaves shares that no call can redeem and A that no call can move
  (`addBLiq` and `withdraw4` divide by PB, lib/clmm_pool_v4.ts:141 and :247): `LadderLimits.LockedForever`,
  `LadderLimits.EmptiesIff`, `LadderLimits.DrainingLocks`.
- The dispatch entry runs the bare walk for anyone (lib/clmm_pool_v4.ts:364): `LadderCalls.RawEmpties` empties the ladder
  without paying for it. Solvency is not touched.
- `pay_out` and `pay_b` take an empty promise result for a failed transfer. A token whose `ft_transfer` returns nothing
  makes them reverse paid operations: `LadderRuns.CallbackBalancedIff`, `LadderRuns.SilentTokenUnbalances`.
- `on_slice` does not ask who calls it (examples/twap.ts:217), so another contract can settle a slice with a promise of
  its own. `Twap.CursorBoundIff` says exactly when the cursor stays within the order, `Twap.ForgedReceiptsOverrun` is a
  run where it does not, `Twap.OverrunIsFinal` that it then never comes back to the value `finalize` asks for.
- A slice's fee goes to the executor stored by the last tick, which another account may have overwritten since the swap
  was sent (examples/twap.ts:194 and :252): `Twap.FeePayeeIff`, `Twap.RacedFeeGoesAstray`.
- `json_set_impl` inserts before the closing brace of the top-level object, not before the final one of the text, and
  drops any text before the object: `JsonSet.InsertsBeforeFinalIff`, `JsonSet.TrailingBrace`.
- A stack charge that overflows becomes 0, and the pass then emits no well-formed body
  (`InstrumentPass.ZeroChargeIsMalformed`); the analysis' own frame sizes rule it out unless the sum overflows
  (`InstrumentPass.ChargePositive`).
- `fe_add` on non-canonical inputs can lose a carry; `SecpField.FeAdd` states exactly when its residue is right, and
  `SecpCurve.UnreducedKeyFails` is a public key that the verifier accepts unreduced and `point_double` gets wrong.

## Model

| member | source | states |
|---|---|---|
| `InstrumentTheorem.InstrumentationPreserves` | src/instrument.rs:477-577 | for every validated module, fee table, fuel and budget: an instrumented function returns the original's results and store, lowers the gas global by exactly the fees on the executed path, has the stack global back at its entry value, keeps traps, and traps at the first charge that does not fit with both globals as that charge found them |
| `InstrumentTheorem.UnstuckPreserves` | src/instrument.rs:477-577 | the same for any run of any module that does not get stuck |
| `InstrumentTheorem.ReplayFits` | src/instrument.rs:670-693 | a charge log goes through exactly when the gas covers its sum and the stack budget its peak depth |
| `InstrumentTheorem.LinearFeeExact` | src/instrument.rs:706-731 | the in-line 64-bit price of an aggregate operator is the mathematical one for all lengths if and only if the longest one does not overflow |
| `InstrumentTheorem.ProtocolFeeExact` | src/instrument.rs:706-731 | the protocol's own fees are inside that range |
| `WasmTyping.FnTyped` | src/instrument.rs:103-137 | a validated function on arguments of its types never gets stuck, charges included: it returns results of its types, traps or runs out of fuel |
| `WasmTyping.CodeTyped` | src/instrument.rs:103-137 | the same for code: falls through with the checked stack types, or jumps with the operands its label asks for |
| `WasmTyping.OpTyped` | src/instrument.rs:103-137 | the same for every operator |
| `WasmTyping.CallTyped` | src/instrument.rs:103-137 | a call replaces arguments by results and leaves the rest as typed |
| `Instrument.GasRuns` | src/instrument.rs:679-693 | the constant charge subtracts its fee or, when gas is short, traps with the gas global untouched |
| `Instrument.HookSeesFee` | src/instrument.rs:679-693 | the gas hook is called on the refused fee |
| `Instrument.LinearRuns` | src/instrument.rs:706-731 | the length-dependent charge does the same for its computed price and leaves operand stack and original locals as they were |
| `Instrument.HookSeesPrice` | src/instrument.rs:706-731 | or on the price compared with the gas left |
| `Instrument.StackRuns` | src/instrument.rs:487-500 | the entry charge reserves the stack charge or traps without reserving |
| `Instrument.UnstackRuns` | src/instrument.rs:661-668 | the release gives the charge back modulo 2^64 |
| `Instrument.ChargesSim` | src/instrument.rs:525-536 | all charge points before one operator together do what the log says, in table order |
| `Instrument.SimCode` | src/instrument.rs:520-575 | every instrumented code sequence simulates its original, for every outcome: fall-through, branch, return, trap, timeout |
| `Instrument.SimOp` | src/instrument.rs:537-574 | so does every operator, including `return` and `return_call` with their release in front |
| `Instrument.SimLoop` | src/instrument.rs:571-573 | loops simulate iteration by iteration under the same fuel |
| `Instrument.SimCall` | src/instrument.rs:542-545 | a call through the shifted index simulates the call of the original function |
| `Instrument.SimFn` | src/instrument.rs:459-577 | a whole activation simulates, with the stack global restored on every exit path |
| `Instrument.SimEntry` | src/instrument.rs:477-511 | the block prologue performs exactly the entry events |
| `Instrument.SimRelease` | src/instrument.rs:565-570 | the code behind the wrapping block restores the stack budget after fall-through and after a branch to the outermost label |
| `Instrument.ReplayAppend` | src/instrument.rs:670-693 | charging two logs in a row is charging their concatenation |
| `InstrumentTyped.InstrumentedValid` | src/instrument.rs:288-307 | whatever the pass makes of a validated module validates, with the hooks in front and the two budget globals behind |
| `InstrumentTyped.FuncChecks` | src/instrument.rs:459-577 | the instrumented function validates with the original's type |
| `InstrumentTyped.CodeChecks` | src/instrument.rs:520-575 | instrumented code has exactly the types of its original, one block deeper |
| `InstrumentEnds.MeteringEnds` | src/instrument.rs:525-536 | where every function pays on entry and every loop body on each iteration, an instrumented activation returns or traps under any fuel of at least its gas |
| `InstrumentEnds.TimeoutFn` | src/instrument.rs:525-536 | an activation that runs out of fuel has been charged more gas than it had fuel |
| `InstrumentEnds.FreeLoopNeverEnds` | src/instrument.rs:525-536 | an uncharged loop that jumps back outlasts all fuel and pays nothing |
| `InstrumentPass.Align` | src/instrument.rs:520-536 | with an offset-sorted charge table the two cursors put before each operator exactly the points of its offset |
| `InstrumentPass.CodeIsFlat` | src/instrument.rs:520-575 | the flat stream emitted for a body is the flattening of its structured instrumentation |
| `InstrumentPass.BodyIsFlat` | src/instrument.rs:520-575 | the same for a whole body with its double `end` and the release between |
| `InstrumentPass.PassIsFlat` | src/instrument.rs:477-577 | with a positive charge the emitted function is the flattened structured one |
| `InstrumentPass.ZeroChargeIsMalformed` | src/instrument.rs:512-518 | with a zero charge the emitted stream is the stream of no function body |
| `InstrumentPass.EarlyEnd` | src/instrument.rs:512-518 | a body that ends after two plain operators has nothing behind that `end` |
| `InstrumentPass.ChargePositive` | src/instrument.rs:156-173 | with frames of at least 64 bytes the charge is positive exactly when the sum does not overflow, and is then the sum |
| `InstrumentPass.FramePrice` | src/instrument.rs:479-486 | a frame costs one regular operator per eight bytes begun, up to the largest price |
| `InstrumentPass.EmitBody` | src/instrument.rs:520-575 | the nested operator and charge-point loops compute the two-cursor specification, errors included |
| `InstrumentPass.RestOkIff` | src/instrument.rs:524-575 | with a sorted, aligned table the operator loop succeeds exactly when every length-dependent charge sits on an aggregate operator with room for its locals and every called index leaves room for the shift |
| `InstrumentPass.AcceptedIff` | src/instrument.rs:408-454 | a body is accepted exactly when its type exists, its locals fit 32 bits, it has an analysis, and all charges and indices fit |
| `InstrumentPass.LocalsFitIff` | src/instrument.rs:419-433 | locals are accepted as long as parameters and declared locals together stay below 2^32 |
| `InstrumentPass.InstrumentContext.constructor` | src/instrument.rs:580-601 | the two hook types follow the original ones |
| `InstrumentPass.InstrumentContext.WrapType` | src/instrument.rs:459-471 | the wrapping block takes no parameters and leaves exactly the function's result types; the type section is extended by that type or not at all |
| `InstrumentPass.InstrumentContext.CountLocals` | src/instrument.rs:419-433 | the first scratch local's index is the number of parameters and declared locals if that fits 32 bits, else too many locals |
| `InstrumentPass.InstrumentContext.TransformCode` | src/instrument.rs:408-578 | one body: it succeeds exactly when accepted and otherwise reports the first error with the code section unchanged; on success the code section grows by the flattened instrumentation of any structured reading of the body |
| `InstrumentPass.InstrumentContext.Run` | src/instrument.rs:288-307 | all bodies in order, each with the next function type: it succeeds exactly when all are accepted, and otherwise stops at the first that is not, with its error; earlier block types stay valid |
| `InstrumentWhole.UniqueReading` | src/instrument.rs:520-575 | the operator stream of a body has one structured reading, up to offsets |
| `InstrumentWhole.WrittenIsInstrumented` | src/instrument.rs:94-101 | three hooks in front and every index shifted by three: whatever decodes from the written code section is an instrumented module in the sense of the theorem |
| `InstrumentWhole.AssembleIsWritten` | src/instrument.rs:580-601 | and something does decode from it |
| `InstrumentWhole.InstrumentModule` | src/instrument.rs:228-406 | the pass from bodies to an instrumented module |
| `InstrumentWhole.WrittenValidates` | src/instrument.rs:228-578 | what is written for a validated module validates |
| `InstrumentWhole.WrittenPreserves` | src/instrument.rs:228-578 | from the written code section to the run-time claim in one theorem |
| `LadderPool.Pool.constructor` | lib/clmm_pool_v4.ts:111-121 | the empty pool |
| `LadderPool.Pool.WidenLadder` | lib/clmm_pool_v4.ts:126-156 | the slot-by-slot widening equals widening all slots from the ladder before it |
| `LadderPool.Pool.AddBLiq` | lib/clmm_pool_v4.ts:134-161 | a deposit's whole new state, and a refund of everything or nothing |
| `LadderPool.Pool.Swap` | lib/clmm_pool_v4.ts:79-102 | the five-slot walk |
| `LadderPool.Pool.SwapLeg` | lib/clmm_pool_v4.ts:304-350 | a swap commits or restores its snapshot, and replies with a refund or the payout's exact deltas |
| `LadderPool.Pool.Judge` | lib/clmm_pool_v4.ts:311-349 | the guards after the walk |
| `LadderPool.Pool.OnPayOut` | lib/clmm_pool_v4.ts:168-183 | a failed payout adds its deltas back, unless a subtraction would underflow |
| `LadderPool.Pool.Withdraw4` | lib/clmm_pool_v4.ts:222-280 | a withdrawal's whole new state and callback arguments |
| `LadderPool.Pool.OnPayB` | lib/clmm_pool_v4.ts:192-218 | a failed first leg adds its deltas back |
| `LadderRuns.LadderSolvency` | lib/clmm_pool_v4.ts:67-102 | over every run whose withdrawals leave room for what is pending, as all from a quiet pool do, and whose receipts tell whether tokens moved: slots worth no more than PB, pending reversals backed, both balance equations |
| `LadderRuns.RunKeeps` | lib/clmm_pool_v4.ts:168-350 | the same from any state that satisfies the invariant |
| `LadderRuns.StepKeeps` | lib/clmm_pool_v4.ts:168-350 | every single event keeps it |
| `LadderRuns.DepositKeeps` | lib/clmm_pool_v4.ts:134-161 | deposits and refunded deposits keep it |
| `LadderRuns.SwapKeeps` | lib/clmm_pool_v4.ts:304-350 | accepted and rejected swaps keep it, the rounding slack moving to the pending payout |
| `LadderRuns.RawKeeps` | lib/clmm_pool_v4.ts:364-366 | so does the bare walk anyone may call |
| `LadderRuns.DeliverKeeps` | lib/clmm_pool_v4.ts:264-279 | so does every receipt outcome, including a failed second leg |
| `LadderRuns.CallbackKeeps` | lib/clmm_pool_v4.ts:168-218 | so does every callback, successful or reversing |
| `LadderRuns.WithdrawKeepsIff` | lib/clmm_pool_v4.ts:222-280 | a withdrawal keeps the invariant if and only if its slots leave room for the pending slack and its A covers the unpaid inputs |
| `LadderRuns.SolventIff` | lib/clmm_pool_v4.ts:247-251 | it keeps the pool solvent if and only if its slots leave that room |
| `LadderRuns.QuietAdmits` | lib/clmm_pool_v4.ts:222-280 | with no payout awaited, every withdrawal does both |
| `LadderRuns.StrandsIff` | lib/clmm_pool_v4.ts:168-251 | after a withdrawal some settling of the pending receipts and callbacks ends in a trapping `pay_out` if and only if the A it leaves is less than the inputs of the swaps not yet returned as paid |
| `LadderRuns.CarefulNeverStrands` | lib/clmm_pool_v4.ts:168-251 | over every run whose withdrawals leave that much, whatever the receipts say, no callback traps |
| `LadderRuns.StrandingRun` | lib/clmm_pool_v4.ts:168-183 | with less A than unpaid inputs, failing the payouts one by one reaches a trap |
| `LadderRuns.HastyWithdrawalStrands` | lib/clmm_pool_v4.ts:168-251 | a deposit, a swap and a withdrawal of half the shares: a run that can end in such a trap |
| `LadderRuns.CallbackBalancedIff` | lib/clmm_pool_v4.ts:168-218 | a callback keeps both balance equations if and only if the promise result is non-empty exactly when the tokens moved |
| `LadderRuns.SilentTokenUnbalances` | lib/clmm_pool_v4.ts:168-183 | a token that returns nothing for a successful transfer unbalances the pool with every swap it pays |
| `LadderLimits.OverhangsIff` | lib/clmm_pool_v4.ts:168-251 | after a withdrawal that strands no payout, some settling leaves slots worth more than PB if and only if the withdrawal leaves no room for the pending slack |
| `LadderLimits.SettleKeeps` | lib/clmm_pool_v4.ts:168-218 | receipts and callbacks keep a pool solvent, whatever the receipts say |
| `LadderLimits.HastyExitInsolvent` | lib/clmm_pool_v4.ts:222-280 | withdrawing every share while a swap is unpaid: a run that leaves no such room |
| `LadderLimits.LockedForever` | lib/clmm_pool_v4.ts:134-251 | with PB 0, shares out, an empty ladder and no payout awaited, no run of any calls changes the storage |
| `LadderLimits.EmptiesIff` | lib/clmm_pool_v4.ts:79-102 | a swap pays out the whole book if and only if it buys the whole ladder, the ladder is worth the whole book and no slot's worth is rounded |
| `LadderLimits.DrainingLocks` | lib/clmm_pool_v4.ts:134-350 | one deposit and one swap that lead there, with the swap's whole input inside |
| `LadderCalls.DepositIff` | lib/clmm_pool_v4.ts:134-146 | in every reachable state a deposit is kept exactly when it is of 10 B or more and at most thirty digits, within capacity, buys a share, and fits 128 bits |
| `LadderCalls.DepositBooksAll` | lib/clmm_pool_v4.ts:134-161 | a kept deposit is booked in full, and its shares go to the sender alone |
| `LadderCalls.WidenShape` | lib/clmm_pool_v4.ts:126-157 | the first deposit is spread 2 : 4 : 10 : 6 : 3 over the five prices, a later one in proportion to the slots, each rounding down twice |
| `LadderCalls.WithdrawIff` | lib/clmm_pool_v4.ts:222-251 | a withdrawal goes through exactly when its shares are held, there is B, and the products fit 128 bits; else it changes nothing |
| `LadderCalls.WithdrawTakes` | lib/clmm_pool_v4.ts:222-280 | it takes the shares from the withdrawer alone, drops the key of one who leaves, and its callback arguments are its deltas |
| `LadderCalls.LongAmounts` | lib/clmm_pool_v4.ts:304-310 | amounts and minimums of more than thirty digits are refused |
| `LadderCalls.RawEmpties` | lib/clmm_pool_v4.ts:364-366 | the bare walk takes slots and charges fees but books nothing, so anyone can empty the ladder |
| `LadderCalls.CoveredMoves` | lib/clmm_pool_v4.ts:168-280 | in every reachable state a transfer that the token accepts is covered |
| `LadderRuns.MinimumMet` | lib/clmm_pool_v4.ts:311-349 | a swap that is kept pays at least its minimum |
| `LadderRuns.MinimumDecides` | lib/clmm_pool_v4.ts:304-349 | up to what a swap pays without a minimum, the minimum changes nothing; above that, or unreadable, everything is refunded and the state kept |
| `LadderRuns.FreeSwapIff` | lib/clmm_pool_v4.ts:311-349 | without a minimum a swap is refused exactly when AB would leave the capacity, PB does not cover it, or the fees leave 128 bits |
| `LadderRuns.NothingUnderflows` | lib/clmm_pool_v4.ts:177-179 | under the invariant dy ≤ PB, every pending reversal is possible, and balances cover every transfer and refund |
| `LadderRuns.CallbackSumsFit` | lib/clmm_pool_v4.ts:171-207 | while the pool's token balances fit, no callback's additions to AB, PB or a slot leave 128 bits |
| `LadderRuns.LadderProductsFit` | lib/clmm_pool_v4.ts:126-129 | the widening products of an admitted deposit fit in 128 bits |
| `LadderRuns.WalkValue` | lib/clmm_pool_v4.ts:67-102 | a walk uses what it takes from the slots and pays no more B than they are worth |
| `LadderRuns.WidenWorth` | lib/clmm_pool_v4.ts:126-156 | a deposit of n adds slots worth at most n |
| `LadderRuns.ScaleWorth` | lib/clmm_pool_v4.ts:247-251 | a withdrawal's scaled slots are worth at most the book it leaves |
| `LadderRuns.WalkExact` | lib/clmm_pool_v4.ts:67-102 | a walk loses less than one B per slot to rounding and charges 30 basis points of what it used |
| `LadderRuns.WalkOrder` | lib/clmm_pool_v4.ts:79-102 | a walk takes slots from the cheapest on and returns input only from an empty ladder |
| `LadderRuns.WidenFull` | lib/clmm_pool_v4.ts:126-156 | a deposit of n adds slots worth more than n − 10 |
| `LadderRuns.DepositNotDilutive` | lib/clmm_pool_v4.ts:134-161 | a deposit does not lower PB per share and mints its full share up to rounding |
| `LadderRuns.WithdrawNotDilutive` | lib/clmm_pool_v4.ts:222-251 | a withdrawal lowers neither AB nor PB per share and pays its full share of both up to rounding |
| `LadderRuns.FailedSwapUndone` | lib/clmm_pool_v4.ts:168-183 | a failed payout right after its swap restores the state exactly |
| `LadderRuns.FailedWithdrawUndone` | lib/clmm_pool_v4.ts:192-207 | a failed first leg right after its withdrawal restores the state exactly, share key included |
| `LadderRuns.SharesConserved` | lib/clmm_pool_v4.ts:134-280 | over every interleaving whatsoever the share entries add up to SHT |
| `LadderRuns.StepKeepsShares` | lib/clmm_pool_v4.ts:134-280 | every event keeps that sum |
| `Cios.CiosMul` | fixtures/fp254_cios.ts:11-67 | for all 16-limb inputs the result times 2^256 is the product modulo p; below p whenever a·b < p·2^256 |
| `Cios.Row` | fixtures/fp254_cios.ts:16-44 | one outer round keeps the accumulator below a + p and its value exact |
| `Cios.MulAddRow` | fixtures/fp254_cios.ts:17-28 | the inner product row adds b[i]·a with no lost carry |
| `Cios.ReduceRow` | fixtures/fp254_cios.ts:29-42 | the reduction row adds m·p and divides by 65536 exactly |
| `Cios.SubtractModulus` | fixtures/fp254_cios.ts:45-58 | the borrow loop is subtraction with borrow-out |
| `Cios.MulTwice` | fixtures/fp254_cios.ts:128-150 | two multiplications leave the factor 2^512 |
| `Poseidon.Hash` | fixtures/poseidon_bn254.ts:118-614 | entry, 65 rounds and exit give the plain-field permutation of the inputs, canonical, for any canonical tables |
| `PoseidonLaws.HashPowers` | fixtures/poseidon_bn254.ts:563-604 | over a matrix that copies an input lane, with one constant k in round r of that lane, the hash is (x^(5^f) + k)^(5^(8−f)), f the number of full rounds before r: r up to 4, then 4, then r − 57 |
| `PoseidonLaws.HashEveryRound` | fixtures/poseidon_bn254.ts:563-604 | over the identity, a constant k at the start of lane 0 gives k^(5^65) |
| `PoseidonLaws.LastRound` | fixtures/poseidon_bn254.ts:563-604 | with constants in the last round only, the permutation of zero is the matrix, row by row, times their fifth powers in order |
| `Poseidon.RoundStep` | fixtures/poseidon_bn254.ts:563-604 | one Montgomery round represents one plain round |
| `Poseidon.ArkStep` | fixtures/poseidon_bn254.ts:565-567 | round constants |
| `Poseidon.SBoxStep` | fixtures/poseidon_bn254.ts:568-583 | full S-box in the first four and last four rounds, partial between |
| `Poseidon.MixStep` | fixtures/poseidon_bn254.ts:584-602 | the matrix product |
| `Poseidon.Fadd` | fixtures/poseidon_bn254.ts:70-109 | canonical modular addition |
| `Poseidon.Pow5` | fixtures/poseidon_bn254.ts:111-115 | x^5 mod p, canonical |
| `Poseidon.MdsRow` | fixtures/poseidon_bn254.ts:585-589 | one row product mod p, canonical |
| `Poseidon.Kslice` | fixtures/poseidon_bn254.ts:617-625 | a slice of a table represents that table element |
| `Poseidon.Enter` | fixtures/poseidon_bn254.ts:556-560 | multiplication by R² enters Montgomery form, reducing any 16-limb input |
| `Poseidon.Leave` | fixtures/poseidon_bn254.ts:605-606 | multiplication by 1 leaves it, canonical |
| `Bn254.BaseFieldValid` | fixtures/fp254_cios.ts:12-13 | the code's limbs are the BN254 base prime and NP0 its negated inverse |
| `Bn254.ScalarFieldValid` | fixtures/poseidon_bn254.ts:10-14 | the same for the scalar prime, which is below 2^255 |
| `Bn254.RSquaredValid` | fixtures/poseidon_bn254.ts:556-557 | the R² constant is 2^512 modulo the scalar prime |
| `Bn254.HashBn254` | fixtures/poseidon_bn254.ts:118-614 | the hash at the code's own constants is the permutation modulo the scalar prime |
| `SecpField.Add256` | src/builtin_schnorr.rs:143-153 | 256-bit addition with carry-out |
| `SecpField.Sub256` | src/builtin_schnorr.rs:155-171 | 256-bit subtraction, borrow exactly when a < b |
| `SecpField.CondSubP` | src/builtin_schnorr.rs:173-180 | subtracts p exactly when not below it |
| `SecpField.FeAdd` | src/builtin_schnorr.rs:182-190 | for all 256-bit inputs the result is canonical, and it is the right residue if and only if a + b + (2^256 − p) < 2^257, as for canonical inputs |
| `SecpField.FeSub` | src/builtin_schnorr.rs:192-201 | right residue on any inputs, canonical when a is |
| `SecpField.MulWide` | src/builtin_schnorr.rs:203-220 | the 512-bit schoolbook product |
| `SecpField.Fold` | src/builtin_schnorr.rs:221-227 | folding the upper half by 2^256 − p |
| `SecpField.FeMul` | src/builtin_schnorr.rs:203-238 | the canonical product for any 256-bit inputs |
| `SecpField.FePow` | src/builtin_schnorr.rs:244-284 | the bit loop is modular exponentiation |
| `SecpField.FeInv` | src/builtin_schnorr.rs:244-263 | a^(p−2) modulo p |
| `SecpField.FeSqrt` | src/builtin_schnorr.rs:265-284 | a^((p+1)/4) modulo p |
| `SecpCurve.AddIsChord` | src/builtin_schnorr.rs:364-398 | the sum of two points is the reflected third point of their chord; infinity is neutral, reflections cancel, equal points double |
| `SecpCurve.DoubleIsTangent` | src/builtin_schnorr.rs:335-362 | the double is the reflected third point of the tangent, or infinity where 2y is 0 |
| `SecpCurve.DoubleOnCurve` | src/builtin_schnorr.rs:335-362 | doubling maps curve points to curve points or infinity |
| `SecpCurve.AddOnCurve` | src/builtin_schnorr.rs:364-398 | so does addition, in every branch |
| `SecpCurve.LadderOnCurve` | src/builtin_schnorr.rs:400-422 | so does the double-and-add ladder |
| `SecpCurve.LadderIsMultiple` | src/builtin_schnorr.rs:400-422 | the ladder is the sum of the j-fold doubles for the set bits j of the scalar, lowest first |
| `SecpCurve.MultipleGrows` | src/builtin_schnorr.rs:400-422 | adding 2^n to a scalar below it adds the n-fold double; leading zeros change nothing |
| `SecpCurve.PointDouble` | src/builtin_schnorr.rs:335-362 | for all 256-bit coordinates the result is canonical; where 2y keeps its carry it is the affine formula's if and only if 2x keeps its carry or 2y is 0 |
| `SecpCurve.PointAdd` | src/builtin_schnorr.rs:364-398 | the affine formula for all 256-bit coordinates, reduced or not, wherever it does not double a point that loses a carry |
| `SecpCurve.UnreducedKeyFails` | src/builtin_schnorr.rs:424-449 | x = 2^256 − 1 lifts to a curve point whose even root is doubled with a lost carry |
| `SecpCurve.ScalarMul` | src/builtin_schnorr.rs:400-422 | for every 256-bit scalar and every base whose coordinates double, reduced or not, the sum of its doubles by the bits of the scalar: infinity for 0, the base for 1, its double for 2, their sum for 3, the j-fold double for 2^j; on the curve or infinity for curve points |
| `SecpScalar.GeqN` | src/builtin_schnorr.rs:491-501 | comparison with the group order |
| `SecpScalar.SubN` | src/builtin_schnorr.rs:514-521 | subtraction of the order modulo 2^256 |
| `SecpScalar.ReduceOnce` | src/builtin_schnorr.rs:551-553 | one conditional subtraction reduces carry and remainder exactly when they are below twice the order |
| `SecpScalar.Product` | src/builtin_schnorr.rs:526-541 | the 512-bit product |
| `SecpScalar.MulModN` | src/builtin_schnorr.rs:525-556 | (a·b) mod n for all 256-bit inputs |
| `SecpScalar.AddModN` | src/builtin_schnorr.rs:558-570 | for all 256-bit inputs the result is (a+b) mod n if and only if a + b < 2n |
| `ClmmMath.SfdxExact` | fixtures/clmm_v5.ts:93-107 | the largest price in [S, 2^128] whose X is within budget |
| `ClmmMath.SfdxStopsShort` | fixtures/clmm_v5.ts:150-153 | strictly short of an edge out of budget, never with zero liquidity |
| `ClmmMath.SfdxMono` | fixtures/clmm_v5.ts:96-107 | a larger budget never stops earlier |
| `ClmmMath.SfdyiExact` | fixtures/clmm_v5.ts:109-116 | the smallest price in [1, S] whose Y is within budget |
| `ClmmMath.SfdyiStopsShort` | fixtures/clmm_v5.ts:188-191 | strictly above an edge out of budget, never with zero liquidity |
| `ClmmMath.SForDyIn` | scripts/clmm_v5_ref.py:115-124 | the reference search returns exactly the closed form, for all L ≥ 0 and S ≥ 1 |
| `ClmmMath.SForDxOut` | scripts/clmm_v5_ref.py:126-135 | the smallest price within an X budget |
| `ClmmMath.SForDy` | scripts/clmm_v5_ref.py:93-102 | the largest price up to 2^127 within a Y budget |
| `ClmmMath.Isqrt` | fixtures/clmm_v5.ts:43-51 | Newton's iteration ends at the floor of the square root |
| `ClmmMath.DxMonoLow` | scripts/clmm_v5_ref.py:85-88 | a segment extended downwards moves no less X |
| `ClmmGrid.PriceAt` | fixtures/clmm_v5.ts:57-75 | the code's grid price is the floor of the square root of its fixed-point power |
| `ClmmGrid.FirstPrices` | fixtures/clmm_v5.ts:57-75 | the values of that grid at cells 0, 1 and 2 |
| `ClmmWalk.UpKeeps` | fixtures/clmm_v5.ts:119-156 | an upward walk stays bracketed and in range, part-fills only cells with liquidity strictly before their far edge, and leaves input only at the end of the range |
| `ClmmWalk.DownKeeps` | fixtures/clmm_v5.ts:159-194 | the same downwards |
| `ClmmWalk.UpMono` | fixtures/clmm_v5.ts:347-366 | more input never gives less output, across crossings, part-fills and exhaustion |
| `ClmmWalk.DownMono` | fixtures/clmm_v5.ts:367-386 | the same downwards |
| `ClmmWalk.FreeIff` | fixtures/clmm_v5.ts:144-146 | nothing is paid for free exactly when every cell crossed for no X pays no Y |
| `ClmmWalk.IdleIff` | fixtures/clmm_v5.ts:127-145 | a walk spends nothing if and only if no cell up to the end of the range takes X, and then pays if and only if one of them pays Y |
| `ClmmWalk.CheapBookNothingFree` | fixtures/clmm_v5.ts:142-146 | a book whose top price is at most one never pays for free |
| `ClmmWalk.UpUnspent` | fixtures/clmm_v5.ts:128-139 | a walk that spends nothing gains only free output, and has then moved |
| `ClmmPool.QuoteIsSwapX` | fixtures/clmm_v5.ts:261-299 | for a committed X swap the quoted refund is exact, and the quoted output is exact if and only if nothing is free |
| `ClmmPool.QuoteIsSwapY` | fixtures/clmm_v5.ts:302-336 | for a committed Y swap both are exact |
| `ClmmPool.CheapQuoteIsSwapX` | fixtures/clmm_v5.ts:388-399 | X quotes are exact on every book priced at most one |
| `ClmmPool.QuoteMono` | fixtures/clmm_v5.ts:393-399 | more input, fee included, is never quoted less output |
| `ClmmPool.MinimumX` | fixtures/clmm_v5.ts:261-299 | an X swap with a minimum is the one without whenever that pays the minimum, and else a full refund that keeps the state unless the walk spends nothing |
| `ClmmPool.MinimumY` | fixtures/clmm_v5.ts:302-336 | the same for Y |
| `ClmmPool.FreeSwapIff` | fixtures/clmm_v5.ts:261-336 | without a minimum a swap goes through exactly when a token is set and its walk spends something and pays something |
| `ClmmPool.QuoteIsHonoured` | fixtures/clmm_v5.ts:388-399 | a quote that spends and pays something and meets the minimum is honoured, at the quote for Y and where nothing is free, at no less in any case |
| `ClmmPool.QuoteNoneIff` | fixtures/clmm_v5.ts:388-399 | only an empty swap has no quote |
| `ClmmPool.EscrowLawX` | fixtures/clmm_v5.ts:261-299 | input escrow rises by amount minus refund, shared exactly between book and fee; output escrow falls and output book rises by the output; a consumed swap meets its minimum |
| `ClmmPool.EscrowLawY` | fixtures/clmm_v5.ts:302-336 | the same for Y |
| `ClmmPool.FullRefundY` | fixtures/clmm_v5.ts:302-328 | a Y swap that refunds everything changes nothing |
| `ClmmPool.FullRefundX` | fixtures/clmm_v5.ts:261-290 | an X swap that refunds everything changes nothing, unless every cell up to the end of the range takes no X and one pays Y; then it moves the price |
| `ClmmPool.RefundMovesPrice` | fixtures/clmm_v5.ts:128-145 | on the code's grid, a full refund that moves the price |
| `ClmmPool.QuoteFallsShort` | fixtures/clmm_v5.ts:347-366 | on the code's grid, a swap that pays twelve where the quote says eleven |
| `ClmmValue.UpValue` | fixtures/clmm_v5.ts:119-156 | an upward walk pays Y worth no more, at the price it reaches, than the X it takes and one X per cell crossed or part-filled |
| `ClmmValue.DownValue` | fixtures/clmm_v5.ts:159-194 | the same downwards |
| `ClmmValue.RoundTrip` | fixtures/clmm_v5.ts:261-336 | selling X and then all the Y it paid brings back no more than the X spent and one X per cell above, at the ratio of the prices reached, and one Y per cell below |
| `ClmmValue.RoundTripGains` | fixtures/clmm_v5.ts:261-336 | on the code's grid, one X buys two Y and they buy two X |
| `ClmmPool.RunKeeps` | fixtures/clmm_v5.ts:197-336 | every state of every run of init, seed, mint and swap is bracketed and in range, with escrows equal to what came in minus what went out, and book and fee of each token adding up to what swaps took and paid of it |
| `ClmmPool.MintWidens` | fixtures/clmm_v5.ts:241-251 | a mint's range lies within the pool's afterwards, which grows no further |
| `ClmmPool.EmptyCovered` | fixtures/clmm_v5.ts:197-213 | a pool without cells has no liquidity anywhere |
| `ClmmPool.RunCovers` | fixtures/clmm_v5.ts:216-336 | over every run without another initialisation, every cell with liquidity lies in range |
| `ClmmPool.SecondInitUncovers` | fixtures/clmm_v5.ts:197-213 | initialising again strands liquidity outside the range |
| `ClmmPool.FeeIsFloor` | fixtures/clmm_v5.ts:39-40 | the fee is the amount shifted down, a zero shift standing for 8 |
| `ClmmPool.AddRangeAdds` | fixtures/clmm_v5.ts:244-247 | a mint adds its liquidity to exactly its cells |
| `ClmmPool.Pool.SwarmUp` | fixtures/clmm_v5.ts:119-156 | the executing upward walk: output, remainder, commit flag, and cell and price written unless nothing was spent and gained |
| `ClmmPool.Pool.ClimbUp` | fixtures/clmm_v5.ts:127-155 | its loop |
| `ClmmPool.Pool.SwarmDn` | fixtures/clmm_v5.ts:159-194 | the executing downward walk |
| `ClmmPool.Pool.ClimbDn` | fixtures/clmm_v5.ts:167-193 | its loop |
| `ClmmPool.Pool.TakeX` | fixtures/clmm_v5.ts:261-299 | an X swap's whole new state and refund, bracketing kept |
| `ClmmPool.Pool.SettleX` | fixtures/clmm_v5.ts:271-298 | its refund, undo, abort and commit branches |
| `ClmmPool.Pool.TakeY` | fixtures/clmm_v5.ts:302-336 | a Y swap's whole new state and refund |
| `ClmmPool.Pool.SettleY` | fixtures/clmm_v5.ts:312-335 | its branches |
| `ClmmPool.Pool.QarmUp` | fixtures/clmm_v5.ts:347-366 | the upward preview loop writes nothing and computes the walk without free output |
| `ClmmPool.Pool.QarmDn` | fixtures/clmm_v5.ts:367-386 | the downward preview loop |
| `ClmmPool.Pool.Quote` | fixtures/clmm_v5.ts:340-399 | the preview of a swap, none for amount 0 |
| `ClmmPool.Pool.Initialise` | fixtures/clmm_v5.ts:197-213 | initialisation resets all but the liquidity cells; the pool is then bracketed if and only if its start price is |
| `ClmmPool.Pool.Credit` | fixtures/clmm_v5.ts:216-220 | a seed is an escrow credit |
| `ClmmPool.Pool.MintPos` | fixtures/clmm_v5.ts:241-251 | a mint's whole new state |
| `JsonSet.JsonSetImpl` | src/helpers.rs:807-931 | on arbitrary bytes the loops end and compute the scanner specification, all slices in range |
| `JsonSet.NextMember` | src/helpers.rs:825-914 | one pass of the member scan |
| `JsonSet.ScanKey` | src/helpers.rs:850-865 | the escape-aware key scan |
| `JsonSet.ScanValue` | src/helpers.rs:881-913 | the depth- and string-aware value scan |
| `JsonValue.JsonIsValue` | src/helpers.rs:881-913 | the scanner reads every value of the JSON grammar, nested and with whitespace behind it, as one value |
| `JsonSet.MemberParse` | src/helpers.rs:825-914 | a rendered member is found with exactly its key and value extents |
| `JsonSet.PlanIsPlace` | src/helpers.rs:823-930 | on any rendered member list the scanner finds the first match, or the end |
| `JsonSet.EditRenders` | src/helpers.rs:832-925 | the splice there is the text of the updated list |
| `JsonSet.SetRefinesUpdate` | src/helpers.rs:807-931 | the setter on the text of any document is the text of the ordered-map update, for every key and value |
| `JsonValue.SetOnJson` | src/helpers.rs:807-931 | setting a key of any JSON object in a text to any JSON value is the ordered update of its members |
| `JsonSet.NoBraceIsFresh` | src/helpers.rs:812-822 | a text without an opening brace gives the one-member object |
| `JsonSet.CutOffIsFresh` | src/helpers.rs:829-901 | so does a document without the key, cut off anywhere before its closing brace |
| `JsonSet.MalformedIsFresh` | src/helpers.rs:845-848 | so does a text whose first member does not begin with a quote |
| `JsonSet.GetAfterSet` | src/helpers.rs:797-801 | a set key reads back its value, every other key its old one |
| `JsonSet.UpdatePlaces` | src/helpers.rs:797-801 | members keep their places; only the first match's value changes, or one member is appended |
| `JsonSet.SetThenSet` | src/helpers.rs:807-931 | on texts, the second of two sets of a key leaves no trace of the first |
| `JsonSet.UpdatesCommute` | src/helpers.rs:797-801 | updates of two present keys commute on member lists |
| `JsonSet.SetsCommute` | src/helpers.rs:807-931 | on texts, sets of two present keys commute |
| `JsonSet.InsertsBeforeFinalIff` | src/helpers.rs:832-844 | a new member goes before the final closing brace of the text if and only if the text after the object holds none |
| `JsonSet.TrailingBrace` | src/helpers.rs:832-844 | a text where it does not |
| `Amm.RunKeeps` | fixtures/amm.ts:60-169 | over every run ts = 0 exactly when each reserve is 0, holdings add up to ts, wallets plus reserves to the minted totals |
| `Amm.RunNotDiluted` | fixtures/amm.ts:60-169 | over every run that never empties the pool, ra·rb/ts² does not fall |
| `Amm.MintedTotals` | fixtures/amm.ts:43-58 | from initialisation these totals are 2500 and 2500 |
| `Amm.AddMoves` | fixtures/amm.ts:60-100 | a covered deposit in the ratio takes both amounts from the caller's wallets and mints the full share to it; everyone else's entries stay |
| `Amm.RemoveMoves` | fixtures/amm.ts:102-125 | a withdrawal of held shares pays the caller the full share of both reserves |
| `Amm.SwapMoves` | fixtures/amm.ts:127-169 | a covered swap that buys at least one unit takes its input from the caller and pays it the most the fee-adjusted product allows, in either direction |
| `Amm.Refused` | fixtures/amm.ts:60-169 | anything not covered, out of ratio or dust changes nothing |
| `Amm.SwapProduct` | fixtures/amm.ts:146-166 | a swap's product of reserves does not fall |
| `Amm.AddPerShare` | fixtures/amm.ts:75-95 | a ratio-locked deposit lowers neither reserve per share |
| `Amm.RemovePerShare` | fixtures/amm.ts:109-122 | nor does a withdrawal |
| `Amm.Exhausted` | fixtures/amm.ts:109-122 | a withdrawal empties a reserve exactly when it burns the whole supply |
| `Amm.MintIsFull` | fixtures/amm.ts:68-82 | the first deposit mints the smaller amount, a later one its full share up to rounding |
| `Amm.ShareIsFull` | fixtures/amm.ts:110-111 | a burn pays its full share up to rounding |
| `Amm.OutputIsFull` | fixtures/amm.ts:146 | a swap pays the most that the fee-adjusted product allows |
| `Amm.StepConserves` | fixtures/amm.ts:60-169 | every call conserves holdings and both tokens |
| `Amm.Market.AddLiquidity` | fixtures/amm.ts:60-100 | the whole new state, or an abort |
| `Amm.Market.RemoveLiquidity` | fixtures/amm.ts:102-125 | the whole new state, or an abort |
| `Amm.Market.SwapExactIn` | fixtures/amm.ts:127-169 | the whole new state, or an abort |
| `Twap.OrderAccounts` | examples/twap.ts:128-258 | for every order after every interleaving, foreign receipts included: nx = xp + filled, no slice settled twice, expired ones only past their grace, ones filled by the order's own receipts only after being sent while due, with the fee to the slice's last sender, filled inputs plus rx equal the deposit once nx = ns, fees, cuts and payouts each as booked and together all outputs |
| `Twap.CursorBoundIff` | examples/twap.ts:217-252 | nx ≤ ns if and only if no foreign receipt settles the order when all its slices are settled |
| `Twap.OverrunIsFinal` | examples/twap.ts:295-307 | past that point nx = ns, which `finalize` asks for, never holds again |
| `Twap.ForgedReceiptsOverrun` | examples/twap.ts:217-252 | two foreign receipts overrun an order of one slice that sent no swap |
| `Twap.FeePayeeIff` | examples/twap.ts:193-253 | the fee of a receipt that settles goes to the sender of its swap if and only if that account was also the last to send the slice |
| `Twap.RacedFeeGoesAstray` | examples/twap.ts:193-253 | two executors tick one slice; the first one's swap fills it and the second is paid |
| `Twap.RunKeeps` | examples/twap.ts:140-259 | the order invariant over every interleaving of creations, ticks and late, failed, repeated or foreign receipts |
| `Twap.TickKeeps` | examples/twap.ts:140-205 | ticks and expiries keep it, rx growing by the expired slice's input |
| `Twap.OnSliceKeeps` | examples/twap.ts:217-259 | receipts keep it, whoever sends them |
| `Twap.CreateKeeps` | examples/twap.ts:73-135 | creation splits the deposit into slice inputs that add up to it |
| `Twap.CreateAsAsked` | examples/twap.ts:73-135 | creation is refused exactly for the listed reasons, and else stores what was asked, with the deposit split |
| `Twap.DueHeights` | examples/twap.ts:73-167 | the first slice is due at the start height, one interval after creation by default, each later one an interval after the one before |
| `Twap.TickWindow` | examples/twap.ts:152-167 | a slice is sent from its due height to the end of its grace, expires after that and is refused before |
| `Twap.TickOverflows` | examples/twap.ts:152-158 | a tick whose heights leave 128 bits is refused |
| `Twap.FeeWithinCap` | examples/twap.ts:236-241 | the fee is the floor of the smaller of the market fee and the seller's cap |
| `Twap.SettlesIff` | examples/twap.ts:217-252 | a receipt settles exactly when it is for the current slice, meets the minimum, fits 128 bits and has a payee for its fee |
| `Twap.OpenAdds` | examples/twap.ts:73-135 | a new order gets the next id and leaves the others alone |
| `Twap.InputSum` | examples/twap.ts:128-133 | n slices take n·si, the last one the remainder too |
| `Twap.SettledIsFinal` | examples/twap.ts:209-223 | later runs only add settlements, never change one |
| `Twap.Split` | examples/twap.ts:236-246 | fee + cut + payout equal the output with no underflow; fee and cut are the exact floors of their basis points |
| `Twap.Engine.Open` | examples/twap.ts:73-135 | creation's checks and stored fields |
| `Twap.Engine.TickOrder` | examples/twap.ts:140-167 | a tick's refusal, expiry or sending |
| `Twap.Engine.TickExpired` | examples/twap.ts:170-188 | expiry's writes |
| `Twap.Engine.TickSwap` | examples/twap.ts:193-205 | the sent slice and its amount |
| `Twap.Engine.TakeReceipt` | examples/twap.ts:217-259 | for any order, known or not, any slice number and any caller: stale, failed and low receipts, and a fee with no executor to pay, change nothing; others settle the current slice |

## Left out

- `ref.func`, indirect calls, exceptions, floating point and vector operators of the instrumentation pass: copied by the pass without change.
- WebAssembly binary encoding, the other sections and name maps, and the cost and stack analysis itself: external libraries; the charge table is an arbitrary offset-sorted one.
- Host functions that read or write globals, and re-entry from the host.
- InstrumentTheorem.InstrumentationPreserves: a diverging run is covered fuel by fuel; validation does not examine code behind a jump, so it admits more than the standard does.
- LadderPool.Pool.OnPayOut: additions are unbounded; `LadderRuns.CallbackSumsFit` bounds them under the invariant.
- LadderPool.Pool.OnPayB: the same; the addition to SHT has no bound, because deposits made while the withdrawal is pending may fill SHT up to 2^128.
- LadderRuns.LadderSolvency: takes it that tokens reach the pool only through its entry point.
- LadderRuns.LadderProductsFit: speaks of the ladder only, because SHT is not capped; share products are guarded one by one in `Withdraws` and `DepositShares`.
- The scratch keys DY and REM of the ladder pool after a rejected swap, string parsing of amounts, and token configuration.
- Cios.MulTwice: limbs of 16 bits, which `ciosMul` documents as its precondition (fixtures/fp254_cios.ts:9-10) and `mulmod` checks.
- Bn254.HashBn254: the same precondition on the input limbs.
- Poseidon.Hash: the same precondition on the input limbs; takes the 195 round constants and the matrix as arbitrary canonical tables; the table literals are not transcribed.
- SecpCurve.ScalarMul: curve membership is for reduced base points, under the hypothesis that `fe_inv` inverts nonzero elements (p is prime); primality, the group law and BIP-340 verification are not proved.
- `sc_sub_n` as a reducer in signing, byte conversions, and SHA-256.
- The accuracy and monotonicity of the grid `G`; `positionRequirements`, `parseState` and `fromState`; the reference's `S_for_dx` and its own pool class, and its integer square root's repair loops.
- JsonSet.ScanValue: the nesting depth is unbounded where the original counts in 32 bits; it never exceeds the bytes read, so texts below 2^31 bytes stay inside.
- Amm.Market.AddLiquidity: products are unbounded; a wallet check bounds every committed amount by the minted totals.
- TWAP `cancel` and `finalize`: they have no status gate, so payouts out of the contract are not conserved by this code.
- BLS, ed25519, gas estimates, adapters, the compiler and interpreter, the Python scripts other than the reference kernel, and the small token fixtures: wrappers, plumbing, or easy members only.
