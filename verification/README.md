# A verified model of the circuit witness evaluators

Every circuit of this repository comes with a generated witness evaluator: straight-line functions
`eval_fn_N` that read and write numbered places of a row, which `evaluate_witness_fn` runs in a fixed
order. What leaves the row must be right for two reasons. The values must be the ones that the machine is
meant to compute, and they must satisfy the constraints that the circuit puts on the same places.

This project models those evaluators as methods on one class, `Witness.Proxy`, whose three arrays hold
memory, witness and scratch places by canonical value of the field of 2^31 - 1 elements. Each method is
named after the evaluation functions it models (`EvalFn18To22` is `eval_fn_18` to `eval_fn_22`), and the
places keep their numbers. A method's contract says what the places mean. The `Evaluate...` methods call
the functions in the source's order, start from arbitrary row contents, and their contracts say what the
whole row means: once in terms of the model, and once in plain numbers, places and decoder words, so that an
encoding cannot be wrong in a definition and in a body alike. Lemmas relate that to independent definitions: the RISC-V manual (sections 2.3, 2.4, 2.5,
2.6 and 7 of the Unprivileged ISA, version 20191213), FIPS 202, and the arithmetic relations that the
circuits enforce. Where the constraints leave a prover no choice, a lemma says so.

The generated files are a single line each, so rows that cite line 1 refer to the functions that the
member's name lists; other rows cite the circuit definition from which the function was generated.

## Modules

- `Mersenne31`, `Witness`, `LimbArithmetic`, `Digits`: the field, the row, two-limb words, carries and
  boolean field expressions.
- `MulRelation`, `ColumnAccumulator`, `MulDivSemantics`, `RiscvM`, `MulDivCircuit`, `MulDivSoundness`,
  `MulDivUnsignedCircuit`: multiplication and division, and that their constraints leave no other results.
- `FullMachineMulDiv`, `FullMachineBranch`, `FullMachineResult`: the full machine, whose instructions share
  places.
- `Decoder`: the instruction decoder of the full and the minimal machine.
- `RiscvControl`, `JumpBranchSltCircuit`: jumps, branches and comparisons.
- `AddSubMopCircuit`, `MinimalMachine`: additions and arithmetic modulo 2^31 - 1.
- `RiscvMemory`, `LoadStoreCircuit`: loads and stores.
- `KeccakSpec` to `KeccakSoftware`: FIPS 202, the 649-call micro-program and its software stand-in;
  `WordShifts` to `KeccakChain`: the same calls in lookup rows; `KeccakPlaces`: those rows place by place.

## Findings

- The offset table of loads and stores is built for keys with the load flag in bit 19 and the x0 flag in
  bit 20, but reads them from bits 17 and 18, which belong to funct3
  (`cs/src/tables/memory_opcode_related.rs:234-235`, key at
  `cs/src/machine/ops/unrolled/load_store.rs:101-104`). So a misaligned lhu never traps and loads zero, and
  a misaligned lh or lw to x0 does trap although the comment says that it must not. `TrapAsStatedIff` says
  exactly when table and comment agree.
- The two comparison tables disagree as functions, but on no pair of real operands
  (`TablesAgreeIff`, `MachinesDecideAlike`).
- The comment on the high half of the immediate subtracts the flags of the J and B formats, the code those of
  J and U (`cs/src/machine/decoder/decode_optimized_must_handle_csr.rs:273-276`, code at 345-347). The code
  is right, and the model follows it.
- The placeholder for a zero divisor in the signed and unsigned circuits is `0x7fff_fff`, seven digits
  long. Any nonzero value gives the same row, and the results are right with this one.

## Assumptions

- U16 and U32 addition, subtraction and shifts wrap; a shift by the full width gives zero, which the
  rotation by 0 in rho needs; `from_integer` reduces modulo p, and `as_integer` is canonical.
- The signed division primitive returns -2^31 and 0 for -2^31 / -1
  (`cs/src/cs/witness_placer/mod.rs:932-947`). The circuits of `MulDivCircuit` rely on it; the full machine
  guards the case and never asks.
- The decoder table marks one format and the selectors of a row are one-hot. Lookup tables are modelled
  where their contents matter; the ROM is an arbitrary function of the word index.
- `or` and addition of disjoint bit fields are written as addition.
- Limbs that arrive from memory are below 2^16, as the memory argument ensures.

## Model

| member | source | states |
|---|---|---|
| MulRelation.ColumnBounds | cs/src/devices/optimization_context.rs:853-862 | no column sum of byte products reaches 2^28, with the four maxima of the range-check comments, for every pair of byte vectors and every sign |
| MulRelation.ColumnsSum | cs/src/devices/optimization_context.rs:806-862 | the four columns, weighted by powers of 2^16, are the signed multiply-add over the integers plus an explicit multiple of 2^64, although products of weight 2^64 and more are dropped |
| MulRelation.CarriesClose | cs/src/devices/optimization_context.rs:893-1450 | whenever the multiply-add holds modulo 2^64, every column minus its limb is an exact non-negative multiple of 2^16, no 32-bit difference wraps, and the carries are at most 510, 1020, 1530 and 2040 |
| MulRelation.CarriesProve | cs/src/devices/optimization_context.rs:893-1450 | converse: integer carries out of all four columns prove the signed multiply-add modulo 2^64 |
| ColumnAccumulator.Accumulate0 | prover/mul_div_preprocessed_generated.rs:1 | the 32-bit accumulator of column 0 equals the column sum minus its limb modulo 2^32 |
| ColumnAccumulator.Accumulate1 | prover/mul_div_preprocessed_generated.rs:1 | the 32-bit accumulator of column 1, carry from below included, equals its sum minus its limb modulo 2^32 |
| ColumnAccumulator.Accumulate2 | prover/mul_div_preprocessed_generated.rs:1 | the accumulator of column 2, with the sign-extension bytes of both factors and of the addend, equals its sum minus its limb modulo 2^32 |
| ColumnAccumulator.Accumulate3 | prover/mul_div_preprocessed_generated.rs:1 | the accumulator of column 3 equals its sum minus its limb modulo 2^32 |
| MulDivSemantics.ResultsAreIsa | cs/src/machine/ops/unrolled/decoder/mul_div.rs:1-192 | for MUL, MULH, MULHSU, MULHU, DIV, DIVU, REM and REMU and all operands, the register that the decoded flag picks is the result of the RISC-V manual, zero divisor and overflow included |
| MulDivSemantics.MultiplicationHolds | cs/src/machine/ops/unrolled/mul_div.rs:289-347 | a product under its operand signs is a multiply-add with no addend modulo 2^64 |
| MulDivSemantics.SignedDivisionMeans | cs/src/machine/ops/unrolled/mul_div.rs:272-288 | quotient and remainder words read under their derived sign flags are the integer quotient and remainder rounded to zero, where -2^31 / -1 reads as +2^31 |
| MulDivSemantics.DivisionHolds | cs/src/machine/ops/unrolled/mul_div.rs:272-288 | for every nonzero divisor quotient times divisor plus remainder is the dividend over the integers with a smaller remainder; for divisor zero the remainder alone is the dividend |
| MulDivSemantics.RemainderTestMeans | cs/src/machine/ops/unrolled/mul_div.rs:388-411 | the add-or-subtract, overflow and zero test says exactly that the remainder is smaller than the divisor in magnitude, for every sign combination, divisor -2^31 and divisor 0 included |
| MulDivSemantics.DivisionUnique | cs/src/machine/ops/unrolled/mul_div.rs:387-411 | a dividend and a nonzero divisor leave room for only one quotient and one small enough remainder of its sign |
| MulDivSemantics.DivisionRelationExact | cs/src/machine/ops/unrolled/mul_div.rs:337-347 | under the magnitude test the relation modulo 2^64 holds over the integers |
| MulDivSemantics.OnlyResultsPass | cs/src/machine/ops/unrolled/mul_div.rs:359-425 | whatever two words satisfy the relation and the magnitude test for a nonzero divisor are the quotient and remainder, so the checks leave no choice |
| MulDivCircuit.EvalFn1 | cs/src/machine/ops/unrolled/decoder/mul_div.rs:1-192 | places 29 to 32 hold the four flag bits of the decoder word |
| MulDivCircuit.WordsDecode | cs/src/machine/ops/unrolled/decoder/mul_div.rs:1-192 | by number: the decoder words 14, 12, 4, 0, 15, 3, 13 and 1 are those of MUL, MULH, MULHSU, MULHU, DIV, DIVU, REM and REMU |
| MulDivCircuit.EvalFn4 | cs/src/machine/utils.rs:776-832 | place 33 is the sign of rs1 under its signedness flag; place 21 is its high limb less 2^15 when signed |
| MulDivCircuit.EvalFn5 | cs/src/machine/utils.rs:776-832 | place 34 is the sign of rs2 under its signedness flag; place 22 is its high limb less 2^15 when signed |
| MulDivCircuit.ComputeResults | cs/src/machine/ops/unrolled/mul_div.rs:69-199 | the selections among six primitives give the specified result pair |
| MulDivCircuit.EvalFn6 | cs/src/machine/ops/unrolled/mul_div.rs:69-199 | places 23 to 26 hold product or quotient and remainder |
| MulDivCircuit.EvalFn7To11 | cs/src/machine/ops/unrolled/mul_div.rs:272-288 | the derived sign flags of quotient and remainder |
| MulDivCircuit.EvalFn12To14 | cs/src/machine/ops/unrolled/mul_div.rs:291-300 | first factor and its sign, chosen by the kind of operation |
| MulDivCircuit.EvalFn15To17 | cs/src/machine/ops/unrolled/mul_div.rs:307-316 | addend and its sign: the remainder, or zero |
| MulDivCircuit.EvalFn18To22 | cs/src/machine/ops/unrolled/mul_div.rs:317-336 | destination: the product, or the sign-extended dividend |
| MulDivCircuit.EvalFn23To24 | cs/src/devices/optimization_context.rs:800-806 | the eight byte places recompose to the two factors |
| MulDivCircuit.EvalFn25 | cs/src/devices/optimization_context.rs:893-930 | stored carry of column 0: byte in place 17, bit 8 in 35 |
| MulDivCircuit.EvalFn26 | cs/src/devices/optimization_context.rs:979-1055 | stored carry of column 1: byte in place 18, bits 8 and 9 in 36 and 37 |
| MulDivCircuit.EvalFn27 | cs/src/devices/optimization_context.rs:1143-1265 | stored carry of column 2: byte in place 19, bits 8 to 10 in 38 to 40 |
| MulDivCircuit.EvalFn28 | cs/src/devices/optimization_context.rs:1373-1510 | stored carry of column 3: byte in place 20, bits 8 to 10 in 41 to 43 |
| MulDivCircuit.EvalFn29To30 | cs/src/machine/ops/unrolled/mul_div.rs:349-357 | the value for rd |
| MulDivCircuit.EvalFn31To32 | cs/src/machine/ops/unrolled/mul_div.rs:364-368 | the zero-divisor flag of a division |
| MulDivCircuit.EvalFn33 | cs/src/machine/ops/unrolled/mul_div.rs:402 | whether remainder and divisor have different signs |
| MulDivCircuit.EvalFn34 | cs/src/machine/utils.rs:965-1071 | sum or difference of remainder and divisor in two limbs with its overflow |
| MulDivCircuit.EvalFn35To38 | cs/src/machine/ops/unrolled/mul_div.rs:404-407 | place 77 is the magnitude test read off that outcome |
| MulDivCircuit.EvalFn42To43 | cs/src/machine/utils.rs:155-330 | the two carries of pc + 4 that make both limbs 16-bit |
| MulDivCircuit.RelationHolds | cs/src/machine/ops/unrolled/mul_div.rs:337-347 | products and quotients alike satisfy the multiply-add modulo 2^64 |
| MulDivCircuit.RelationCarries | cs/src/devices/optimization_context.rs:893-1450 | hence all four carries are exact and small |
| MulDivCircuit.CarryChainExact | cs/src/devices/optimization_context.rs:893-1450 | cutting the carries to 9, 10, 11 and 11 bits loses nothing for decoded flags |
| MulDivCircuit.DivisionChecksPass | cs/src/machine/ops/unrolled/mul_div.rs:359-425 | a division by zero gives the all-ones quotient, any other division passes the magnitude test |
| MulDivCircuit.SelectorsDecode | picus_frontend/README.md:50 | the eight named selectors decode to the eight instructions and are consistent |
| MulDivCircuit.RowMeans | cs/src/machine/ops/unrolled/mul_div.rs:289-425 | a finished row holds the ISA result of its instruction for rd and satisfies both division constraints |
| MulDivCircuit.CompareMagnitudes | cs/src/machine/ops/unrolled/mul_div.rs:388-412 | the remainder and the divisor are compared through one sum or difference, limb by limb, and place 77 says what its overflow and zero test mean |
| MulDivCircuit.ColumnsOnPlaces | cs/src/devices/optimization_context.rs:1071-1079 | the four columns close over the places as they stand, each carry being its byte and its bits with weights 2^8, 2^9 and 2^10 |
| MulDivCircuit.EvaluateWitness | prover/mul_div_preprocessed_generated.rs:1 | one evaluation over any previous row contents, in terms of places and of decoder words by number: the ISA result in 67 and 68, columns that close over bytes, signs, destination and weighted carry bits, the pc carries; and all places in range, both division checks passed |
| MulDivSoundness.DecomposedValue | cs/src/types.rs:1315-1350 | range-checked bytes recompose in the field to the limbs of a word exactly when they are its bytes |
| MulDivSoundness.EquationsProve | cs/src/devices/optimization_context.rs:893-1551 | range-checked bytes and carries that satisfy the four column equations in the field, written over the places with the weight of every carry bit, prove the signed multiply-add modulo 2^64 |
| MulDivSoundness.ComparisonExact | cs/src/machine/utils.rs:965-1071 | the limb equations of the comparison hold in the field exactly when they hold over the integers |
| MulDivSoundness.RelationForces | cs/src/machine/ops/unrolled/mul_div.rs:337-425 | the multiply-add and the two rules for divisions force products, quotients and remainders, divisor zero included |
| MulDivSoundness.OnlyResultsSatisfy | cs/src/machine/ops/unrolled/mul_div.rs:289-425 | whatever fills the places of a row, if range checks, column equations, comparison and division rules hold then the result places hold the results of the instruction, for all eight instructions and all operands |
| MulDivSoundness.ResultsSatisfy | cs/src/machine/ops/unrolled/mul_div.rs:289-425 | conversely, one evaluation satisfies all of these constraints for all flags that the decoder produces |
| MulDivUnsignedCircuit.EvalFn1To5 | prover/mul_div_unsigned_preprocessed_generated.rs:1 | the two flags of the unsigned decoder word |
| MulDivUnsignedCircuit.ComputeUnsignedResults | cs/src/machine/ops/unrolled/mul_div.rs:204-267 | the unsigned selections give the specified result pair |
| MulDivUnsignedCircuit.EvalFn8 | cs/src/machine/ops/unrolled/mul_div.rs:204-267 | places 20 to 23 hold it |
| MulDivUnsignedCircuit.EvalFn9To16 | prover/mul_div_unsigned_preprocessed_generated.rs:1 | first factor, addend and destination |
| MulDivUnsignedCircuit.EvalFn17To18 | prover/mul_div_unsigned_preprocessed_generated.rs:1 | the byte places recompose to the factors |
| MulDivUnsignedCircuit.EvalFn19 | prover/mul_div_unsigned_preprocessed_generated.rs:1 | stored carry of column 0: byte in place 17, bit 8 in 32 |
| MulDivUnsignedCircuit.EvalFn20 | prover/mul_div_unsigned_preprocessed_generated.rs:1 | stored carry of column 1: byte in place 18, bits 8 and 9 in 33 and 34 |
| MulDivUnsignedCircuit.EvalFn21 | prover/mul_div_unsigned_preprocessed_generated.rs:1 | stored carry of column 2, without sign terms: byte in place 19, bit 8 in 35 |
| MulDivUnsignedCircuit.EvalFn22To25 | prover/mul_div_unsigned_preprocessed_generated.rs:1 | value for rd and zero-divisor flag |
| MulDivUnsignedCircuit.EvalFn26 | cs/src/machine/utils.rs:908-964 | one subtraction decides whether the remainder is below the divisor |
| MulDivUnsignedCircuit.EvalFn30To31 | prover/mul_div_unsigned_preprocessed_generated.rs:1 | carries of pc + 4 |
| MulDivUnsignedCircuit.UnsignedCarriesClose | prover/mul_div_unsigned_preprocessed_generated.rs:1 | without signs the third carry is at most 510 and nothing is carried out of the fourth column, which justifies the places that this circuit omits |
| MulDivUnsignedCircuit.UnsignedRelation | prover/mul_div_unsigned_preprocessed_generated.rs:1 | products and quotients give an exact unsigned multiply-add |
| MulDivUnsignedCircuit.UnsignedChainExact | prover/mul_div_unsigned_preprocessed_generated.rs:1 | cutting the carries to 9, 10 and 9 bits loses nothing |
| MulDivUnsignedCircuit.UnsignedColumnsOnPlaces | cs/src/devices/optimization_context.rs:1071-1079 | the columns close over the places as they stand, with nothing carried out of the fourth |
| MulDivUnsignedCircuit.UnsignedRowMeans | cs/src/machine/ops/unrolled/decoder/mul_div.rs:1-192 | under the words 2, 0, 3 and 1 the row holds the results of MUL, MULHU, DIVU and REMU and satisfies both division constraints |
| MulDivUnsignedCircuit.EvaluateUnsignedWitness | prover/mul_div_unsigned_preprocessed_generated.rs:1 | one evaluation, in terms of places and of decoder words by number: the ISA result in 49 and 50, columns that close over bytes, destination and weighted carry bits, the division rules, and the pc carries |
| MulDivUnsignedCircuit.UnsignedResultsAreIsa | cs/src/machine/ops/unrolled/decoder/mul_div.rs:1-192 | the supported instructions deliver the ISA result |
| MulDivUnsignedCircuit.SameCarries | prover/mul_div_unsigned_preprocessed_generated.rs:1 | the relation fixes the carries, so both circuits store the same ones |
| MulDivUnsignedCircuit.AgreesWithSigned | prover/mul_div_unsigned_preprocessed_generated.rs:1 | a row of this circuit and a row of the signed one with both sign flags clear agree on rd, bytes, carries, trap and remainder check, and the extra places of the signed one hold zero |
| FullMachineMulDiv.ResultsAreIsaHere | cs/src/machine/ops/mul_div.rs:125-154 | under the three shared minor flags the chosen register is the ISA result for each of the eight instructions |
| FullMachineMulDiv.MinorFlags | cs/src/machine/ops/mul_div.rs:125-154 | the class and minor flags of each of the eight instructions, by position |
| FullMachineMulDiv.RelationHoldsHere | cs/src/machine/ops/mul_div.rs:614-625 | the relation holds with divisor and quotient as factors in either order |
| FullMachineMulDiv.CarriesExactHere | cs/src/machine/ops/mul_div.rs:614-625 | in the full machine too all four carries are exact and at most 510, 1020, 1530 and 2040 |
| FullMachineMulDiv.EvalFn30To32 | cs/src/machine/ops/mul_div.rs:131-142 | signs of the factors of a product |
| FullMachineMulDiv.ComputeProduct | cs/src/devices/optimization_context.rs:393-499 | the four products selected by sign are one signed product modulo 2^64 |
| FullMachineMulDiv.ProductBySigns | cs/src/devices/optimization_context.rs:393-499 | the product under the operand signs is the one that the signedness flags specify |
| FullMachineMulDiv.EvalFn33To34 | cs/src/devices/optimization_context.rs:393-499 | places 23 to 26 of a multiplication |
| FullMachineMulDiv.EvalFn35To37 | cs/src/machine/ops/mul_div.rs:424-434 | signs of divisor and dividend under the signedness of the division |
| FullMachineMulDiv.ComputeDivision | cs/src/machine/ops/mul_div.rs:455-569 | with a divisor of one in the two guarded cases the selections give quotient and remainder on all inputs, zero divisor and overflow included |
| FullMachineMulDiv.EvalFn38 | cs/src/machine/ops/mul_div.rs:455-569 | places 23 to 26 of a division, left alone by other classes |
| FullMachineMulDiv.EvalFn39To41 | cs/src/machine/ops/mul_div.rs:586-610 | sign disagreement, sign extension of the dividend and the result choice |
| FullMachineMulDiv.EvalFn62To64 | cs/src/devices/optimization_context.rs:1937-1963 | zero test of the quotient, gated by two classes |
| FullMachineMulDiv.EvalFn65To67 | cs/src/devices/optimization_context.rs:1937-1963 | zero test of the remainder |
| FullMachineMulDiv.EvalFn68To70 | cs/src/devices/optimization_context.rs:1937-1963 | zero test of the divisor |
| FullMachineMulDiv.EvalFn74To78 | cs/src/devices/optimization_context.rs:2048-2128 | factors of the relation, whichever class is active |
| FullMachineMulDiv.EvalFn79To84 | cs/src/devices/optimization_context.rs:2048-2128 | addend and destination |
| FullMachineMulDiv.EvalFn85To86 | prover/full_machine_with_delegation_generated.rs:1 | the byte places recompose to the factors |
| FullMachineMulDiv.EvalFn87 | cs/src/devices/optimization_context.rs:893-930 | stored carry of column 0: byte in place 17, bit 8 in 65 |
| FullMachineMulDiv.EvalFn88 | cs/src/devices/optimization_context.rs:979-1055 | stored carry of column 1: byte in place 18, bits 8 and 9 in 66 and 67 |
| FullMachineMulDiv.EvalFn130 | cs/src/devices/optimization_context.rs:1143-1265 | stored carry of column 2: byte in place 19, bits 8 to 10 in 68 to 70 |
| FullMachineMulDiv.EvalFn131 | cs/src/devices/optimization_context.rs:1373-1510 | stored carry of column 3: byte in place 20, bits 8 to 10 in 71 to 73 |
| FullMachineMulDiv.EvalFn96To97 | cs/src/machine/ops/mul_div.rs:153-154 | low or high half of the product |
| FullMachineMulDiv.EvalFn98To100 | cs/src/machine/ops/mul_div.rs:582-605 | signs of quotient and remainder, zero-divisor flag |
| FullMachineMulDiv.EvalFn101To105 | cs/src/machine/ops/mul_div.rs:644-655 | remainder plus or minus divisor with its overflow, in places that only one of two writers fills |
| FullMachineMulDiv.EvalFn106To109 | cs/src/machine/ops/mul_div.rs:657-660 | the magnitude test read off that outcome |
| FullMachineMulDiv.EvalFn110To111 | cs/src/machine/ops/mul_div.rs:691-692 | quotient or remainder for rd |
| FullMachineMulDiv.EvalFn128To129 | cs/src/devices/optimization_context.rs:2048-2128 | signs of the second factor and of the addend |
| FullMachineMulDiv.ColumnsOnPlaces | cs/src/devices/optimization_context.rs:1071-1079 | the columns close over the places as they stand, carry bits with their weights |
| FullMachineMulDiv.EvaluateWitness | prover/full_machine_with_delegation_generated.rs:1 | one evaluation of a row of either class, in terms of places: under class flag 47 or 51 and at most one minor flag, 193 and 194 hold the ISA result or zero for x0, the columns close over weighted carry bits, and the checks hold |
| FullMachineMulDiv.RowMeans | cs/src/machine/ops/mul_div.rs:612-692 | rd receives the ISA result for each of the eight instructions on all inputs, the magnitude test passes for every nonzero divisor, and a division by zero has the enforced all-ones quotient |
| FullMachineResult.EvalFn167 | prover/full_machine_with_delegation_generated.rs:1 | under one active class the sum over all classes is the low limb of that class, named by flag place and value place for every class, whatever the other places hold |
| FullMachineResult.EvalFn168 | prover/full_machine_with_delegation_generated.rs:1 | likewise for the high limb |
| FullMachineResult.LowByPlace | prover/full_machine_with_delegation_generated.rs:1 | the low limb of each class by its flag place |
| FullMachineResult.HighByPlace | prover/full_machine_with_delegation_generated.rs:1 | the high limb of each class by its flag place |
| FullMachineResult.EvalFn90 | prover/full_machine_with_delegation_generated.rs:1 | whether rd is x0 |
| FullMachineResult.EvalFn169To170 | prover/full_machine_with_delegation_generated.rs:1 | the result is cleared for x0 |
| FullMachineResult.EvaluateRd | prover/full_machine_with_delegation_generated.rs:1 | the limbs for rd are those of the active class, by flag place and value place, or zero for x0 |
| FullMachineResult.EvalFn171 | prover/full_machine_with_delegation_generated.rs:1 | next pc: branch address, cleaned jump target or pc + 4, by class and by flag place |
| Decoder.CutUnique | cs/src/machine/decoder/decode_optimized_must_handle_csr.rs:77-110 | an instruction word has only one cut into ten pieces |
| Decoder.ImmediateByPieces | cs/src/machine/decoder/decode_optimized_must_handle_csr.rs:252-276 | the pieces assemble the immediates of section 2.3 of the RISC-V manual |
| Decoder.ImmediateOfWord | cs/src/machine/decoder/decode_optimized_must_handle_csr.rs:252-276 | the I, S and U immediates as arithmetic on the word |
| Decoder.JumpImmediateOfWord | cs/src/machine/decoder/decode_optimized_must_handle_csr.rs:252-276 | the B and J immediates as arithmetic on the word |
| Decoder.PiecesOfHalves | cs/src/machine/decoder/decode_optimized_must_handle_csr.rs:77-110 | the pieces as bits of the two halves |
| Decoder.ImmediateByFields | cs/src/machine/decoder/decode_optimized_must_handle_csr.rs:279-340 | for every 32-bit word and every format with an immediate the two Mersenne-31 sums are the halves of the sign-extended immediate |
| Decoder.CutHalves | cs/src/machine/decoder/decode_optimized_must_handle_csr.rs:77-110 | the shifts and masks deliver the cut of the word |
| Decoder.EvalFn3 | cs/src/machine/decoder/decode_optimized_must_handle_csr.rs:77-110 | the eight stored pieces, in both layouts |
| Decoder.EvalFn8 | cs/src/machine/decoder/decode_optimized_must_handle_csr.rs:279-307 | low half of the immediate as a sum over scaled places and format flags |
| Decoder.EvalFn9 | cs/src/machine/decoder/decode_optimized_must_handle_csr.rs:307-400 | high half |
| Decoder.EvalRd | cs/src/machine/decoder/decode_optimized_must_handle_csr.rs:210-212 | the register number of rd, reached through the inverse of 2^7, is the word divided by 2^7 modulo 2^5: bit 7 plus twice the piece above it |
| Decoder.Decode | prover/full_machine_with_delegation_generated.rs:1 | one decoder row: for every word and format both halves of the immediate and rd as bits 7 to 11, in the full and the minimal layout |
| Decoder.DecodeFull | prover/full_machine_with_delegation_generated.rs:1 | the decoder of the full machine, from places to places: every piece, the immediate under each format flag and rd as arithmetic on the two halves of the word |
| Decoder.DecodeMinimal | prover/minimal_machine_with_delegation_generated.rs:1 | the same for the places of the minimal machine |
| Decoder.OnlyTheCutPasses | cs/src/machine/decoder/decode_optimized_must_handle_csr.rs:137-191 | range-checked pieces whose two scaled differences are boolean in the field are the cut of the word: bits 7 and 20 cannot be chosen |
| JumpBranchSltCircuit.EvalFn1 | cs/src/machine/ops/unrolled/decoder/jump_slt_branch.rs:1-179 | places 15 to 19 hold bits 0 to 4 of the decoder word, five one-hot selectors |
| JumpBranchSltCircuit.WordsSelect | cs/src/machine/ops/unrolled/decoder/jump_slt_branch.rs:4-8 | by number: the words 1, 2, 4, 8 and 16 stand for jal, jalr, slt, slti and branches, and no other word spells their selectors |
| JumpBranchSltCircuit.EvalFn4To8 | cs/src/machine/ops/unrolled/jump_branch_slt.rs:103-166 | five conditional writers leave exactly the active difference or sum, whatever the places held |
| JumpBranchSltCircuit.EvalFn9 | cs/src/machine/ops/unrolled/jump_branch_slt.rs:169-175 | zero test of the difference |
| JumpBranchSltCircuit.EvalFn10To11 | cs/src/machine/utils.rs:729-775 | negated signs of the compared words |
| JumpBranchSltCircuit.EvalFn12 | cs/src/tables/branch_opcode_related.rs:147-214 | the comparison flag, through the field expression of the key |
| JumpBranchSltCircuit.KeyByField | cs/src/machine/ops/unrolled/jump_branch_slt.rs:180-217 | that expression is the integer borrow + 2 equal + 4 sign1 + 8 sign2 |
| JumpBranchSltCircuit.ResolveIsCondition | cs/src/tables/branch_opcode_related.rs:147-214 | the table decides equality, signed and unsigned order for all words and every funct3 |
| JumpBranchSltCircuit.ConditionMeans | cs/src/tables/branch_opcode_related.rs:147-214 | the condition of each funct3 as a comparison of integers |
| JumpBranchSltCircuit.TablesAgreeIff | cs/src/tables/branch_opcode_related.rs:3-146 | the two comparison tables differ as functions, and exactly when a signed comparison meets different signs and a borrow equal to the first sign |
| JumpBranchSltCircuit.MachinesDecideAlike | cs/src/tables/branch_opcode_related.rs:3-146 | no two words give such facts, so both machines decide every comparison alike and tell branches from set-less-than |
| JumpBranchSltCircuit.EvalFn13To14 | cs/src/machine/ops/unrolled/jump_branch_slt.rs:218-245 | gates of the two candidates for rd |
| JumpBranchSltCircuit.EvalFn18To21 | cs/src/machine/ops/unrolled/jump_branch_slt.rs:246-294 | four of six conditional writers of the next pc |
| JumpBranchSltCircuit.EvalFn22To25 | cs/src/machine/ops/unrolled/jump_branch_slt.rs:295-330 | the two that depend on the branch outcome; together only the active address remains |
| JumpBranchSltCircuit.EvalFn26 | cs/src/tables/jump_opcode_related.rs:3-26 | place 32 is zero exactly when bit 1 of the low limb of the target is clear, and place 33 is the largest multiple of four not above that limb |
| JumpBranchSltCircuit.EvalFn28 | cs/src/devices/utils.rs:14-128 | the carry between limbs makes both limb equations of the active relation true |
| JumpBranchSltCircuit.EvalFn29 | cs/src/devices/utils.rs:14-128 | the carry between limbs makes both limb equations of the next pc true, for the branch outcome included |
| JumpBranchSltCircuit.RdMeans | cs/src/machine/ops/unrolled/jump_branch_slt.rs:218-245 | rd is the return address, the comparison bit or zero, as the instruction says |
| JumpBranchSltCircuit.EndPcMeans | cs/src/machine/ops/unrolled/jump_branch_slt.rs:246-366 | the next pc is the one of the instruction, and the alignment bit is zero exactly for targets that are multiples of four |
| JumpBranchSltCircuit.RdByWord | cs/src/machine/ops/unrolled/jump_branch_slt.rs:218-245 | the value for rd by decoder word |
| JumpBranchSltCircuit.NextPcByWord | cs/src/machine/ops/unrolled/jump_branch_slt.rs:246-366 | the next pc by decoder word |
| JumpBranchSltCircuit.CarriesByPlaces | cs/src/devices/utils.rs:14-128 | both carry places close the low limbs that the decoder word selects |
| JumpBranchSltCircuit.EvaluateWitness | prover/jump_branch_slt_preprocessed_generated.rs:1 | one evaluation, in terms of places and of decoder words by number: rd and next pc of jal, jalr, slt, slti and all branches on all inputs, and both carries |
| FullMachineBranch.EvalFn18 | prover/full_machine_with_delegation_generated.rs:1 | pc + 4 |
| FullMachineBranch.EvalFn42To43 | cs/src/machine/ops/conditional.rs:113-127 | difference of the operands and branch target, with their carries |
| FullMachineBranch.EvalFn44 | cs/src/tables/jump_opcode_related.rs:3-26 | alignment bit of the target |
| FullMachineBranch.EvalFn62To64 | cs/src/devices/optimization_context.rs:1937-1963 | equality flag in places shared with divisions |
| FullMachineBranch.EvalFn112 | cs/src/tables/branch_opcode_related.rs:3-146 | branch decision and set-less-than result for all operands and every funct3 |
| FullMachineBranch.Decisions | cs/src/machine/ops/conditional.rs:162-179 | both decisions, funct3 by funct3, as comparisons of integers |
| FullMachineBranch.KeyByField | cs/src/machine/ops/conditional.rs:162-179 | the seven-bit key is an integer packing of funct3 and four comparison facts |
| FullMachineBranch.EvalFn154To156 | cs/src/machine/ops/conditional.rs:210-254 | alignment check gated by the decision, and the address the branch continues at |
| FullMachineBranch.EvaluateWitness | cs/src/machine/ops/conditional.rs:94-281 | in terms of places, for all operands and every funct3: rd receives the comparison bit or zero for x0, pc the target or pc + 4, and place 145 marks a misaligned taken branch |
| AddSubMopCircuit.EvalFn1 | cs/src/machine/ops/unrolled/decoder/add_sub_lui_auipc_mop.rs:1-162 | places 12 to 19 hold bits 0 to 7 of the decoder word, eight one-hot selectors |
| AddSubMopCircuit.ValueByWord | cs/src/machine/ops/unrolled/decoder/add_sub_lui_auipc_mop.rs:1-162 | by number: the value and the overflow under each of the eight decoder words |
| AddSubMopCircuit.LimbProduct | cs/src/machine/ops/unrolled/add_sub_lui_auipc_mop.rs:245-267 | four limb products, with 2^32 written as 2, are the word product modulo 2^31 - 1 |
| AddSubMopCircuit.EvalFn4 | cs/src/machine/ops/unrolled/add_sub_lui_auipc_mop.rs:245-267 | place 28 is that product |
| AddSubMopCircuit.FieldResults | cs/src/machine/ops/unrolled/add_sub_lui_auipc_mop.rs:363-430 | modular sum, difference and product of whole words, reduced first |
| AddSubMopCircuit.ComputeResults | cs/src/machine/ops/unrolled/add_sub_lui_auipc_mop.rs:288-436 | eight candidates under one selector give the specified output, intermediate and overflow |
| AddSubMopCircuit.EvalFn5 | cs/src/machine/ops/unrolled/add_sub_lui_auipc_mop.rs:288-436 | output limbs, intermediate limbs and overflow place |
| AddSubMopCircuit.EvalFn9To10 | cs/src/machine/utils.rs:155-330 | pc + 4 closes both limb equations |
| AddSubMopCircuit.EvalFn11 | cs/src/devices/utils.rs:14-128 | the low carry closes both limb equations of the active instruction |
| AddSubMopCircuit.CheckedSumExact | cs/src/machine/ops/unrolled/add_sub_lui_auipc_mop.rs:122-270 | each of the eight checked sums is exact with the stored overflow, and for modular results that is the borrow against the modulus |
| AddSubMopCircuit.CarriesByPlaces | cs/src/devices/utils.rs:14-128 | the carry place closes the low limbs that the decoder word selects |
| AddSubMopCircuit.ModularConstraints | cs/src/machine/ops/unrolled/add_sub_lui_auipc_mop.rs:196-270 | the field equations of the three modular operations hold of the written limbs, and the borrow is always set |
| AddSubMopCircuit.OnlyCanonicalPasses | cs/src/machine/ops/unrolled/add_sub_lui_auipc_mop.rs:196-270 | an output congruent to the value that borrows against the modulus is the canonical one |
| AddSubMopCircuit.EvaluateWitness | prover/add_sub_lui_auipc_mop_preprocessed_generated.rs:1 | one evaluation, in terms of places and of decoder words by number: outputs, overflow, intermediate limbs, carries and pc carries of all eight instructions on all inputs |
| MinimalMachine.EvalFn36 | cs/src/machine/ops/mop.rs:77-90 | the limb product is the word product modulo 2^31 - 1 |
| MinimalMachine.EvalFn37 | cs/src/machine/ops/mop.rs:146-186 | the one flagged modular result, canonical, in two limbs |
| MinimalMachine.EvalFn38And57 | cs/src/machine/ops/mop.rs:211-234 | output of the class and its borrow against the modulus |
| MinimalMachine.EvalFn59 | cs/src/devices/utils.rs:14-128 | one shared carry place closes both limb equations of whichever class is active, named by flag place and operand places |
| MinimalMachine.EvaluateModular | cs/src/machine/ops/mop.rs:55-265 | a modular operation from operand places to the canonical result in 10 and 11, its borrow and the closed relation |
| MinimalMachine.EvalFn97 | prover/minimal_machine_with_delegation_generated.rs:1 | next pc by class and by flag place |
| LoadStoreCircuit.OffsetTableMeans | cs/src/tables/memory_opcode_related.rs:217-292 | on the keys that the circuit sends, the table gives offset, width and half, and traps every misaligned access but lhu |
| LoadStoreCircuit.TrapAsStatedIff | cs/src/tables/memory_opcode_related.rs:217-292 | it follows the trap rule of its comments exactly unless the access is a misaligned lhu that is not a load to x0, or a misaligned lh or lw that is one |
| LoadStoreCircuit.MisalignedLhuPasses | cs/src/tables/memory_opcode_related.rs:217-292 | a concrete misaligned lhu that is let through |
| LoadStoreCircuit.LoadByTable | cs/src/tables/memory_opcode_related.rs:294-380 | limb selection and the load table give the ISA value of every aligned byte and half-word load |
| LoadStoreCircuit.MisalignedLoadsZero | cs/src/tables/memory_opcode_related.rs:294-380 | a misaligned lhu loads zero |
| LoadStoreCircuit.MergedLimb | cs/src/tables/memory_opcode_related.rs:382-495 | kept and written parts of a limb share no bit |
| LoadStoreCircuit.MergeIsStore | cs/src/tables/memory_opcode_related.rs:382-495 | the merged limbs are the word after sb or sh, and the other half-word is unchanged |
| LoadStoreCircuit.EvalFn2 | cs/src/machine/utils.rs:854-907 | address limbs and carry |
| LoadStoreCircuit.EvalFn3 | cs/src/machine/ops/unrolled/load_store.rs:99-117 | offset lookup |
| LoadStoreCircuit.EvalFn4 | cs/src/machine/ops/unrolled/load_store.rs:95-117 | width and half flags |
| LoadStoreCircuit.EvalFn5 | cs/src/tables/rom_related.rs:3-33 | the RAM flag is set exactly when the high limb reaches the bound, and place 24 holds the ROM part |
| LoadStoreCircuit.RamFromAddress | cs/src/tables/rom_related.rs:20-23 | RAM starts at 2^16 times the bound, and below it the ROM index is the address divided by 4 |
| LoadStoreCircuit.EvalFn6To7 | cs/src/machine/ops/unrolled/load_store.rs:147-151 | store, ROM-load and RAM-load flags sum to one |
| LoadStoreCircuit.RomKeyByField | cs/src/machine/ops/unrolled/load_store.rs:285-299 | the field expression with the inverse of 4 is the aligned word index |
| LoadStoreCircuit.EvalFn13 | cs/src/machine/ops/unrolled/load_store.rs:289-299 | ROM word, in its own case only |
| LoadStoreCircuit.EvalFn14To15 | cs/src/machine/ops/unrolled/load_store.rs:340-355 | part of a RAM word, in its own case only |
| LoadStoreCircuit.EvalFn16To17 | cs/src/machine/ops/unrolled/load_store.rs:378-396 | what a store keeps, in its own case only |
| LoadStoreCircuit.EvalFn18 | cs/src/machine/ops/unrolled/load_store.rs:397-406 | what a store puts |
| LoadStoreCircuit.EvalFn27To28 | cs/src/machine/ops/unrolled/load_store.rs:300-316 | part of a ROM word |
| LoadStoreCircuit.SumFirstKey | cs/src/devices/optimization_context.rs:1964-2047 | the summed key is the key of the active case |
| LoadStoreCircuit.EvalFn19To22 | cs/src/devices/optimization_context.rs:1964-2047 | first shared lookup row: key, outputs and table number of the active case |
| LoadStoreCircuit.EvalFn24 | cs/src/devices/optimization_context.rs:1964-2047 | table number of the second shared lookup |
| LoadStoreCircuit.LookupsInTables | cs/src/devices/optimization_context.rs:1964-2047 | both shared lookup rows are in the tables whose numbers 45, 46, 54, 55 or 0 stand beside them |
| LoadStoreCircuit.EvalFn37To39 | cs/src/devices/optimization_context.rs:1964-2047 | second shared lookup row, all zero for a RAM load |
| LoadStoreCircuit.EvalFn29To32 | cs/src/machine/ops/unrolled/load_store.rs:317-370 | full word or part, for both sources |
| LoadStoreCircuit.EvalFn33To34 | cs/src/machine/ops/unrolled/load_store.rs:407-420 | merged limbs of a store |
| LoadStoreCircuit.EvalFn35To36 | cs/src/machine/ops/unrolled/load_store.rs:421-437 | full word or merge |
| LoadStoreCircuit.EvalFn41To44 | cs/src/machine/ops/unrolled/load_store.rs:440-456 | value for rd, zero for x0 |
| LoadStoreCircuit.PassesIff | cs/src/machine/ops/unrolled/load_store.rs:95-117 | a row can be completed exactly for aligned accesses of known width and for every lhu |
| LoadStoreCircuit.LoadMeans | cs/src/machine/ops/unrolled/load_store.rs:440-456 | every load that passes leaves the ISA value in rd, except that a misaligned lhu leaves zero; the word read is that of memory from 2^16 times the bound on and the ROM word of the address below |
| LoadStoreCircuit.RomAndRamAgree | cs/src/machine/ops/unrolled/load_store.rs:278-370 | ROM and RAM loads of the same word at the same address leave the same rd |
| LoadStoreCircuit.StoreMeans | cs/src/machine/ops/unrolled/load_store.rs:371-437 | every store that passes writes back the ISA word, and below word width leaves the unselected half alone |
| LoadStoreCircuit.LoadByLimbs | cs/src/tables/memory_opcode_related.rs:294-380 | the limbs for rd of every load that passes, funct3 by funct3, from the limbs of the word read |
| LoadStoreCircuit.StoreByLimbs | cs/src/tables/memory_opcode_related.rs:382-495 | the limbs written back by every store, funct3 by funct3 |
| LoadStoreCircuit.EvaluateWitness | prover/load_store_preprocessed_generated.rs:1 | one evaluation, in terms of places: address, RAM flag against 2^16 times the bound, numbered tables with both lookup rows in them, loaded and stored limbs funct3 by funct3, and exactly which rows pass |
| KeccakSpec.RoundConstantsFollowLfsr | riscv_transpiler/src/vm/delegations/keccak_special5.rs:442-468 | the 24 round constants are those of the shift register of FIPS 202, section 3.2.5 |
| KeccakSpec.RhoOffsetsFollowWalk | riscv_transpiler/src/vm/delegations/keccak_special5.rs:434-437 | the rotation offsets are those of the walk of FIPS 202, section 3.2.2, which visits every other lane once |
| KeccakSpec.OperationsByBits | riscv_transpiler/src/vm/delegations/keccak_special5.rs:273-398 | the operations on lanes as operations on 64 bits |
| KeccakSpec.ThetaByLanes | riscv_transpiler/src/vm/delegations/keccak_special5.rs:273-398 | theta lane by lane, as in FIPS 202, section 3.2.1 |
| KeccakSpec.RhoPiByLanes | riscv_transpiler/src/vm/delegations/keccak_special5.rs:273-398 | rho and pi move the lane at (x, y) to (y, 2x + 3y) rotated by its offset, as in sections 3.2.2 and 3.2.3 |
| KeccakSpec.ChiIotaByLanes | riscv_transpiler/src/vm/delegations/keccak_special5.rs:273-398 | chi and iota lane by lane, as in sections 3.2.4 and 3.2.5 |
| KeccakOrder.PlaceFollowsPi | riscv_transpiler/src/vm/delegations/keccak_special5.rs:173-215 | the next row of the index table is the previous one read through pi of FIPS 202, section 3.2.3 |
| KeccakOrder.PlaceInjective | riscv_transpiler/src/vm/delegations/keccak_special5.rs:173-215 | every row places the 25 lanes in 25 words |
| KeccakOrder.PlaceCloses | riscv_transpiler/src/vm/delegations/keccak_special5.rs:173-215 | after 24 rounds the lanes are back in their own words |
| KeccakMachine.DecodeEncode | riscv_transpiler/src/vm/delegations/keccak_special5.rs:117-129 | decoding undoes the packing of the control word |
| KeccakMachine.RunAdd | riscv_transpiler/src/replayer/delegations/keccak_special5.rs:123-200 | runs compose |
| KeccakRun.StepIsLogical | riscv_transpiler/src/vm/delegations/keccak_special5.rs:168-272 | a step on the 31 words in memory is the same step on the lanes in order |
| KeccakRun.NextRowIsPi | riscv_transpiler/src/vm/delegations/keccak_special5.rs:173-215 | reading memory through the next row is pi |
| KeccakRun.ThetaStep | riscv_transpiler/src/vm/delegations/keccak_special5.rs:273-398 | iteration i of theta puts column i |
| KeccakRun.RhoStep | riscv_transpiler/src/vm/delegations/keccak_special5.rs:273-398 | iteration i of rho rotates column i by the FIPS 202 offsets |
| KeccakRun.ChiSteps | riscv_transpiler/src/vm/delegations/keccak_special5.rs:273-398 | chi1 then chi2 overwrite what they read and still leave a[x] xor (not a[x+1] and a[x+2]) in all five lanes |
| KeccakRun.IotaStep | riscv_transpiler/src/vm/delegations/keccak_special5.rs:273-398 | iteration i stores the parity of column i, iteration 0 after adding the pending constant |
| KeccakRun.ColumnMixSteps | riscv_transpiler/src/vm/delegations/keccak_special5.rs:273-398 | columnmix1 then columnmix2 turn five parities into the five words of theta, the spare word carrying rotl(C0, 1) |
| KeccakRefinement.RoundRun | riscv_transpiler/src/vm/delegations/keccak_special5.rs:130-167 | the 27 calls of a round are one round of Keccak-f[1600] with iota left to the next round, from any state |
| KeccakRefinement.AdjustedConstantIsDelayed | riscv_transpiler/src/vm/delegations/keccak_special5.rs:284-312 | the adjusted constants are the constants one round late |
| KeccakRefinement.WholeRun | common_constants/src/delegation_types/keccak_special5.rs:15 | 649 calls from control word 0 on any 31 words leave Keccak-f[1600] of the first 25 in place, fixed scratch words and the final control value |
| KeccakPrograms.ControlOnPath | riscv_transpiler/src/vm/delegations/keccak_special5.rs:130-167 | no run meets a control word outside the index table before call 649 |
| KeccakPrograms.Call | riscv_transpiler/src/replayer/delegations/keccak_special5.rs:13-122 | one call on memory is one step of the machine |
| KeccakPrograms.Replay | riscv_transpiler/src/replayer/delegations/keccak_special5.rs:123-242 | the replay loop leaves Keccak-f[1600] and the final control value |
| KeccakSoftware.TablesFollowWalk | riscv_transpiler/src/vm/delegations/keccak_special5.rs:434-441 | the in-place tables are the walk of FIPS 202 and its offsets |
| KeccakSoftware.RhoPiInPlace | riscv_transpiler/src/vm/delegations/keccak_special5.rs:469-587 | one pass around the cycle of lanes is rho followed by pi |
| KeccakSoftware.ColumnParities | riscv_transpiler/src/vm/delegations/keccak_special5.rs:469-587 | five column parities by accumulation |
| KeccakSoftware.AddMix | riscv_transpiler/src/vm/delegations/keccak_special5.rs:469-587 | with the parities known, theta in place |
| KeccakSoftware.ChiRow | riscv_transpiler/src/vm/delegations/keccak_special5.rs:469-587 | chi of one row through a copy |
| KeccakSoftware.ChiInPlace | riscv_transpiler/src/vm/delegations/keccak_special5.rs:469-587 | chi in place |
| KeccakSoftware.PermuteInPlace | riscv_transpiler/src/vm/delegations/keccak_special5.rs:469-587 | a round without iota in place |
| KeccakSoftware.LastRound | riscv_transpiler/src/vm/delegations/keccak_special5.rs:469-587 | the last round also leaves the six scratch words of the micro-program |
| KeccakSoftware.KeccakF1600Ext | riscv_transpiler/src/vm/delegations/keccak_special5.rs:469-587 | the software stand-in computes the same 31 words as 649 calls of the delegation |
| KeccakHalves.JoinXor | cs/src/delegation/keccak_special5/mod.rs:716-760 | xor of 32-bit halves is xor of lanes |
| KeccakHalves.JoinAndNot | cs/src/delegation/keccak_special5/mod.rs:716-760 | and-not of halves is and-not of lanes |
| KeccakHalves.JoinRotl | cs/src/delegation/keccak_special5/mod.rs:1043-1125 | shift-and-add on halves is the 64-bit rotation, for every count, 0 and 32 included |
| WordPieces.ShiftIsProduct | cs/src/tables/keccak_precompile_related.rs:238-277 | both parts of a shifted limb are the halves of its product with a power of two |
| KeccakRows.XorRowsHold | cs/src/delegation/keccak_special5/mod.rs:1482-1690 | the eight xor rows are in their table and recompose to operands and result |
| KeccakRows.XorRowsDetermine | cs/src/delegation/keccak_special5/mod.rs:1482-1690 | any eight rows of the table that recompose to the operands recompose to the xor |
| KeccakRows.AndNotRowsHold | cs/src/tables/keccak_precompile_related.rs:211-237 | the eight and-not rows are in their table and recompose to operands and result |
| KeccakRows.AndNotRowsDetermine | cs/src/tables/keccak_precompile_related.rs:211-237 | any eight rows of the table that recompose to the operands recompose to the and-not |
| KeccakRows.ControlBytes | cs/src/delegation/keccak_special5/mod.rs:677-697 | the packed control bytes never carry into each other and select the bytes of the round constant |
| KeccakRows.IotaRowsHold | cs/src/tables/keccak_precompile_related.rs:147-210 | the iota rows hold a byte of the word, the control byte and their xor with a byte of the round constant |
| KeccakRows.IotaRowsDetermine | cs/src/tables/keccak_precompile_related.rs:147-210 | any rows of the iota table with these control bytes that recompose to the word recompose to its xor with the round constant |
| KeccakRows.RotationLimbs | cs/src/delegation/keccak_special5/mod.rs:133-176 | the 16-bit pieces of a rotation by k land k / 16 limbs further up |
| KeccakRows.RotationRowsHold | cs/src/tables/keccak_precompile_related.rs:238-277 | the four rotation rows hold w + 2^16 r and both shifted parts and recompose to the rotation |
| KeccakRows.RotationRowsDetermine | cs/src/tables/keccak_precompile_related.rs:238-277 | any four rows of the rotation table with this count that recompose to the word recompose to its rotation |
| KeccakRows.TablesByNumber | cs/src/definitions/table_type.rs:1-76 | the tables of the gates are those numbered 0, 4, 59, 60 and 61, each with its own formula on numbers |
| KeccakRows.ConstantByteIs | cs/src/tables/keccak_precompile_related.rs:147-210 | the byte that a control byte selects is cut out of the round constant, and is zero past the last round |
| KeccakCircuit.StepHalvesIsStep | cs/src/delegation/keccak_special5/mod.rs:716-1180 | every micro-step on 32-bit halves is the micro-step of the machine on lanes |
| KeccakCircuit.GateDetermines | cs/src/delegation/keccak_special5/mod.rs:1482-1690 | table membership and recomposition fix the output of a lookup group |
| KeccakCircuit.RowDetermines | cs/src/delegation/keccak_special5/mod.rs:1215-1420 | whatever rows and words satisfy the wiring, the words written are those of the step |
| KeccakCircuit.HonestHolds | cs/src/delegation/keccak_special5/mod.rs:716-1420 | in every micro-step all forty rows agree with the table of their group and recompose to the wires |
| KeccakCircuit.NextControlIsBump | cs/src/delegation/keccak_special5/mod.rs:253-358 | the circuit advances the control word as the machine does |
| KeccakCircuit.NextControlConstraint | cs/src/delegation/keccak_special5/mod.rs:641-658 | the linear constraint on the next control word holds of it |
| KeccakWitness.EvalFn25 | cs/src/delegation/keccak_special5/mod.rs:555-605 | one-hot step and iteration flags and round bits of any control word |
| KeccakWitness.EvalFn26To30 | cs/src/delegation/keccak_special5/mod.rs:661-670 | rho iteration flags |
| KeccakWitness.EvalFn31 | cs/src/delegation/keccak_special5/mod.rs:677-678 | round index of the iota constant, gated by the first iteration |
| KeccakWitness.EvalFn32To35 | cs/src/delegation/keccak_special5/mod.rs:679-687 | packed control bytes |
| KeccakWitness.EvalFn36 | cs/src/delegation/keccak_special5/mod.rs:716-1214 | rows, temporaries and output words of the selected step, with the control bytes of the iota rows taken from places 166 to 169 |
| KeccakWitness.GroupTablesAreGates | cs/src/delegation/keccak_special5/mod.rs:1215-1420 | the table numbers chosen by step are those that the gates name, by number: 59 for iota, 60 for chi, 61 for rotations and 4 elsewhere |
| KeccakWitness.EvalTables | prover/keccak_delegation_generated.rs:1 | places 38, 63, 88, 113 and 138 hold the literal table number of each group in each step |
| KeccakWitness.EvaluateWitness | prover/keccak_delegation_generated.rs:1 | one evaluation of an executing row: step, iteration, round and rho flags, packed control bytes, all forty lookup rows and the literal table numbers of their groups hold what the circuit enforces, and the output words are the step of the machine |
| KeccakPlaces.FlagsByWord | cs/src/delegation/keccak_special5/mod.rs:555-687 | every flag place and control byte in terms of the control word as a number |
| KeccakPlaces.TablesByWord | cs/src/delegation/keccak_special5/mod.rs:1215-1420 | the five table numbers 4, 59, 60 and 61 of each step, by number |
| KeccakPlaces.RowsInTables | cs/src/delegation/keccak_special5/mod.rs:1215-1420 | all eight rows of every group are in the table whose number stands in place 38, 63, 88, 113 or 138 |
| KeccakPlaces.RowsByPlace | prover/keccak_delegation_generated.rs:1 | the three places of each of the forty lookup rows and the four of each temporary |
| KeccakPlaces.WordsByPlace | cs/src/delegation/keccak_special5/mod.rs:390-452 | the four places of each of the six words read |
| KeccakPlaces.LimbsOfLane | cs/src/delegation/keccak_special5/mod.rs:81-110 | the four limbs of a word are the 16-bit pieces of its lane, lowest first |
| KeccakPlaces.BytesByRow | cs/src/delegation/keccak_special5/mod.rs:112-131 | two rows recompose a limb, low byte first, in each of three columns |
| KeccakPlaces.RotationByRow | cs/src/delegation/keccak_special5/mod.rs:133-176 | each rotation row holds a limb with its count, and its shifted parts add up to the limbs of the result |
| KeccakPlaces.WiresByStep | cs/src/delegation/keccak_special5/mod.rs:716-1214 | which words, temporaries and outputs each group relates, step by step |
| KeccakPlaces.CopiesByStep | cs/src/delegation/keccak_special5/mod.rs:716-1214 | which words each step copies |
| KeccakPlaces.EvaluatePlaces | prover/keccak_delegation_generated.rs:1 | one evaluation of an executing row, in terms of places and numbers: step and iteration flags from the control word, the five table numbers, and every lookup row in the table named beside it |
| KeccakChain.LinkIsStep | cs/src/delegation/keccak_special5/mod.rs:1215-1420 | a satisfying row performs the step between two memories |
| KeccakChain.TraceIsRun | cs/src/delegation/keccak_special5/mod.rs:205-370 | a trace is the run of the machine, row by row |
| KeccakChain.HonestTrace | cs/src/delegation/keccak_special5/mod.rs:716-1420 | conversely, from any memory there is a trace of every length up to 649 made of the rows that the witness computation gives, so the circuit never rejects an honest run |
| KeccakChain.TraceComputesKeccak | common_constants/src/delegation_types/keccak_special5.rs:15 | whatever fills 649 linked rows, if the flags of each are one-hot, the first control word is zero and each row satisfies the circuit and the control constraint, then no row has an invalid control word and memory ends with Keccak-f[1600] of the state it started with |

## Left out

- Hints for inverses (for instance places 54, 57, 70, 75 and 78 of the signed multiplication circuit): no function reads them, and they are determined by the zero flags beside them.
- Plain range-check lookups (`lookup_enforce`): they add only that bytes are bytes, which the contracts say where it matters.
- Oracle reads, timestamps and access bookkeeping: inputs of a row are parameters.
- Decoder.Decode: takes the format flags as a precondition, because the opcode table that sets them (`eval_fn_7`) is not modelled.
- FullMachineBranch.EvaluateWitness: takes the sign bits (`eval_fn_20`, `eval_fn_22`) and the second operand (`eval_fn_16`, `eval_fn_17`) as preconditions, `FullMachineBranch.Row.Read`.
- Shifts, binary operations, CSR access and the conditional lookups that share places with them.
- FullMachineMulDiv.EvaluateWitness: runs the functions of the two classes in order and leaves out the functions of other classes, which write these places only under their own flags; the sign bits (`eval_fn_20`, `eval_fn_22`) and the second operand (`eval_fn_16`, `eval_fn_17`) are preconditions, `FullMachineMulDiv.Row.Read`.
- KeccakWitness.EvaluateWitness: covers rows that execute; a padding row has no step. The output words are results of the method, as the evaluator computes them without storing them.
- KeccakChain.TraceComputesKeccak: assumes that every row sees the memory that the previous row left, which the memory argument ensures; that argument and the permutation checks are not modelled.
- MulDivSoundness.OnlyResultsSatisfy: states the sign places, zero tests and gates of a row as the values that their boolean constraints force, and the column, byte and limb constraints as equations in the field.
- LoadStoreCircuit.EvaluateWitness: leaves out the addresses of the two memory queries and the carries of pc + 4, which are those of the other circuits.
- The split of reduced circuits into word-only and subword-only loads, and the circuit for initialisation and teardown.
- Polynomial constraints as polynomials: only the equations that the models need are stated.
- The sponge around Keccak-f[1600], and the field implementation behind the Mersenne-31 operations.
