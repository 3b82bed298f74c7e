# Template transactions, modelled in Dafny

This project models the template-transaction contract of BuildingGadgets.
An `ITemplateTransaction` collects `ITransactionOperator`s and then executes
them, once, over a backing template. The result is a new template.

A template is a sparse map from block positions to block data. Positions and
data are opaque type parameters `P` and `D`, and a template is a `map<P, D>`.

An operator (`TransactionOperator.Operator`) is a record of:
- four callbacks: `createPos`, `createDataForPos`, `transformData` and `transformPos`;
- a set of declared `Characteristic`s.

Every callback answers with a value, with `null` (`Returned(None)`) or with an
exception (`Threw`). `createPos` is called repeatedly until it stops returning
positions. It is modelled as the finite list of positions it returns,
together with whether the call after the last of them throws.

The interfaces have no implementation of `execute`, so the engine is written
from the documented contract. `Execution.RunPhases` runs four phases in
order:

1. Drain every operator's `createPos`.
2. Ask the owning operator's `createDataForPos` for each created position.
   - Data overwrites the entry.
   - `null` keeps the existing entry, and is an error when there is none.
3. Run the chain of `transformData` once per distinct data value. `null`
   removes the value and every position that references it.
4. Run the chain of `transformPos` once per remaining position. Each call
   receives the already-transformed data, and `null` removes the position.

Three readings of the contract are modelling choices:
- **Composition.** "In the order in which they were specified" is read as
  composition. Each operator receives the previous operator's answer, and the
  chain stops at the first `null` or exception.
- **Repeated creation.** A position created more than once takes the data of
  its last creation that returned data.
- **"Already present".** The contract calls a `null` from `createDataForPos`
  an error when the position is "not already present in the backing
  template" (`ITransactionOperator.java:61-62`, `ITemplateTransaction.java:43`).
  The model checks the template as phase 2 has built it so far: the backing
  template plus the data earlier creations returned. So if one operator
  creates a position with data and a later one creates it again and answers
  `null`, the first data stays and nothing fails. A literal reading of
  "backing" would fail that execution instead.

The source does not say what happens when two surviving positions are moved
onto the same target with different data. The model reports this as the
generic `ExecutionFailed` error. Targets whose data agrees merge.

`TemplateTransaction` is the single-use state machine (`Open`, then
`Consumed`). `Operate` appends to the operator list. `Execute` consumes the
transaction, and any later call is rejected as `Unsupported`. `Replay` runs a
sequence of client calls.

`CharacteristicSkipping` models the optimisation that the characteristics
allow. An engine may call each phase's callbacks only on the operators that
declare the matching characteristic. This is proved to give the same result
as the reference engine whenever every operator keeps the defaults of the
callbacks it does not declare.

Errors follow the exception types of the source:
- `Unsupported` is `UnsupportedOperationException`.
- `OperatorExecutionFailed` is `OperatorExecutionFailedException`.
- `ConcurrentExecution` is `ConcurrentTransactionExecutionException`.
- `ExecutionFailed` is any other `TransactionExecutionException`.

The contract raises `OperatorExecutionFailedException` in two cases: a
callback throws, or `createDataForPos` returns `null` for a position without
data. The model keeps the two apart through the error's cause,
`CallbackThrew` or `MissingData(pos)`, under one error kind, as the source
does.

## Model

| member | source | states |
|---|---|---|
| TransactionOperator.DrainCreatePos | src/api/java/com/direwolf20/buildinggadgets/api/template/ITemplateTransaction.java:33 | Calling `createPos` until it returns null collects exactly the positions it returned, in order. The call that ended the loop did not return a position. It threw exactly when the generator throws at its end. |
| Execution.CreatePositions | src/api/java/com/direwolf20/buildinggadgets/api/template/ITemplateTransaction.java:33 | Phase 1 succeeds exactly when no operator's `createPos` throws. Otherwise it fails with an operator-execution failure. |
| Execution.CreateDataForPositions | src/api/java/com/direwolf20/buildinggadgets/api/template/ITransactionOperator.java:57-71 | After phase 2 the template holds the backing positions plus every created position. Each entry is the data of the last creation that returned data, or else the backing data. Failures are operator-execution failures. A missing-data failure names a created position that had no backing data. When phase 2 succeeds is stated by `ExecutionProperties.CreateDataSucceedsIff`. |
| Execution.TransformAllData | src/api/java/com/direwolf20/buildinggadgets/api/template/ITransactionOperator.java:73-83 | Phase 3 succeeds exactly when no position's data chain throws. The surviving positions are exactly those whose chain returns data, and each holds its chain's result. |
| Execution.TransformAllPositions | src/api/java/com/direwolf20/buildinggadgets/api/template/ITransactionOperator.java:85-97 | Phase 4 fails exactly when a position chain throws or two positions collide with different data. Every target comes from some position's chain. Every position whose chain returns a target lands there with its data. |
| Execution.RunPhases | src/api/java/com/direwolf20/buildinggadgets/api/template/ITemplateTransaction.java:50-54 | Running the operators never fails with `Unsupported` or `ConcurrentExecution`. It fails only with an operator-execution failure or a generic execution failure. |
| ExecutionProperties.CreationsAreProduced | src/api/java/com/direwolf20/buildinggadgets/api/template/ITemplateTransaction.java:33-34 | Each position scheduled for data creation was returned by the `createPos` of the operator recorded as its owner. |
| ExecutionProperties.ProducedAreScheduled | src/api/java/com/direwolf20/buildinggadgets/api/template/ITemplateTransaction.java:33-34 | Each position any operator's `createPos` returned is scheduled for that operator's `createDataForPos`. |
| ExecutionProperties.CreatePositionsAppendSucceeds | src/api/java/com/direwolf20/buildinggadgets/api/template/ITemplateTransaction.java:26 | Phase 1 over two lists of operators, one after the other, succeeds exactly when it succeeds over each list. |
| ExecutionProperties.CreatePositionsAppend | src/api/java/com/direwolf20/buildinggadgets/api/template/ITemplateTransaction.java:26 | Creations follow registration order: those of earlier operators come first. |
| ExecutionProperties.ChainDataAppend | src/api/java/com/direwolf20/buildinggadgets/api/template/ITemplateTransaction.java:26 | Operators are composed in registration order (`Execution.ChainData`: each `transformData` receives the previous answer, and a null or an exception ends the chain). The data chain of two lists of operators is the first list's chain continued by the second list's. |
| ExecutionProperties.ChainPosAppend | src/api/java/com/direwolf20/buildinggadgets/api/template/ITemplateTransaction.java:26 | Operators are composed in registration order (`Execution.ChainPos`: each `transformPos` receives the previous position and the same transformed data, and a null or an exception ends the chain). The position chain of two lists of operators is the first list's chain continued by the second list's. |
| ExecutionProperties.ThrowingCreationFails | src/api/java/com/direwolf20/buildinggadgets/api/template/ITemplateTransaction.java:52 | If `createDataForPos` throws for any created position, phase 2 fails with an operator-execution failure. |
| ExecutionProperties.UnbackedNullFails | src/api/java/com/direwolf20/buildinggadgets/api/template/ITemplateTransaction.java:43-45 | A null from `createDataForPos` for a position with no data makes phase 2 fail with an operator-execution failure. |
| ExecutionProperties.CreateDataSucceedsIff | src/api/java/com/direwolf20/buildinggadgets/api/template/ITemplateTransaction.java:43-45 | Phase 2 succeeds exactly when no `createDataForPos` call throws and every null answer is for a position that already has data, either in the backing template or from an earlier creation. Both directions are stated. |
| ExecutionProperties.LastProducedIsLast | src/api/java/com/direwolf20/buildinggadgets/api/template/ITransactionOperator.java:58-59 | When a position is created several times, the data that phase 2 keeps for it is the answer of its last creation that returned data. |
| ExecutionProperties.SharedDataStaysShared | src/api/java/com/direwolf20/buildinggadgets/api/template/ITransactionOperator.java:77 | Positions that held the same data are kept or removed together, and keep sharing their transformed data. |
| ExecutionProperties.RemovedDataRemovesReferences | src/api/java/com/direwolf20/buildinggadgets/api/template/ITransactionOperator.java:77 | A data value whose chain returns null removes every position that references it. If every other chain returns data, all other positions survive. |
| ExecutionProperties.NullPositionRemovesOnlyIt | src/api/java/com/direwolf20/buildinggadgets/api/template/ITransactionOperator.java:91 | A position whose chain returns null contributes nothing: phase 4 gives the same result with that position deleted beforehand. |
| RunProperties.RunPhasesResult | src/api/java/com/direwolf20/buildinggadgets/api/template/ITemplateTransaction.java:46-49 | A successful execution returns exactly the positions that survive both transformations, each mapped to its final data. The position chain sees the transformed data. The template it transforms holds the backing and the created positions. |
| RunProperties.CreatedPositionsPresent | src/api/java/com/direwolf20/buildinggadgets/api/template/ITemplateTransaction.java:33 | Every position any `createPos` returned is in the template once both creation phases finish. |
| RunProperties.KeptDataChain | src/api/java/com/direwolf20/buildinggadgets/api/template/ITransactionOperator.java:78-83 | A chain of operators with identity `transformData` returns its input. |
| RunProperties.KeptPosChain | src/api/java/com/direwolf20/buildinggadgets/api/template/ITransactionOperator.java:92-97 | A chain of operators with identity `transformPos` returns its input position. |
| RunProperties.NothingCreated | src/api/java/com/direwolf20/buildinggadgets/api/template/ITransactionOperator.java:52-55 | Operators whose `createPos` returns null at once create no position. |
| RunProperties.KeptDataTransform | src/api/java/com/direwolf20/buildinggadgets/api/template/ITransactionOperator.java:78-83 | Phase 3 with identity `transformData` returns its input template. |
| RunProperties.KeptPosTransform | src/api/java/com/direwolf20/buildinggadgets/api/template/ITransactionOperator.java:92-97 | Phase 4 with identity `transformPos` returns its input template. |
| RunProperties.DefaultsLeaveTemplateUnchanged | src/api/java/com/direwolf20/buildinggadgets/api/template/ITransactionOperator.java:46-97 | Operators that behave as the defaults leave every template unchanged: same keys, same data. |
| RunProperties.DefaultOperatorIsIdentity | src/api/java/com/direwolf20/buildinggadgets/api/template/ITransactionOperator.java:52-106 | The operator that overrides nothing (`TransactionOperator.DefaultOperator`: `createPos` returns null at once, `createDataForPos` throws, both transforms return their argument, no characteristic) leaves every template unchanged, however many times it is registered. |
| RunProperties.DefaultCreateDataFails | src/api/java/com/direwolf20/buildinggadgets/api/template/ITransactionOperator.java:68-71 | An operator that creates a position but keeps the throwing default `createDataForPos` makes the execution fail with an operator-execution failure. |
| RunProperties.NullForNewPositionFails | src/api/java/com/direwolf20/buildinggadgets/api/template/ITransactionOperator.java:61-63 | In any execution, a position that some operator creates, that the backing template lacks, and for which no operator that returns it produces data, makes the execution fail with an operator-execution failure. The position is not silently dropped. |
| RunProperties.NullForNewPositionNamesIt | src/api/java/com/direwolf20/buildinggadgets/api/template/ITemplateTransaction.java:43-45 | With a single operator that creates one position absent from the template and answers null for it, the failure is a missing-data failure naming exactly that position. |
| RunProperties.CreatedDataReplaces | src/api/java/com/direwolf20/buildinggadgets/api/template/ITransactionOperator.java:47-49 | For any list of creations, phase 2 gives each created position the data of its last creation that returned data, and leaves the data of every position that was not created unchanged. |
| RunProperties.NullKeepsExistingData | src/api/java/com/direwolf20/buildinggadgets/api/template/ITemplateTransaction.java:43-44 | For any list of creations, phase 2 succeeds when no call throws and every null answer is for a position the backing template holds. A position whose every creation answered null keeps its backing data. |
| TemplateTransaction.Operate | src/api/java/com/direwolf20/buildinggadgets/api/template/ITemplateTransaction.java:16-23 | Registration succeeds exactly on an open transaction. It appends the operator after the earlier ones, even a duplicate, and leaves the backing template alone. On a consumed transaction it is `Unsupported`. |
| TemplateTransaction.Execute | src/api/java/com/direwolf20/buildinggadgets/api/template/ITemplateTransaction.java:39-56 | Execution always leaves the transaction consumed, with its backing template and operators unchanged. It reports `Unsupported` exactly when the transaction was already consumed. It never reports a concurrency failure. |
| TemplateTransaction.ConsumedRejectsEverything | src/api/java/com/direwolf20/buildinggadgets/api/template/ITemplateTransaction.java:39-40 | A consumed transaction rejects every further call as `Unsupported` and never changes. |
| TemplateTransaction.SingleUse | src/api/java/com/direwolf20/buildinggadgets/api/template/ITemplateTransaction.java:54 | In any sequence of client calls (`TemplateTransaction.Replay`), every call after the first `execute` is rejected as `Unsupported`, whatever that `execute` returned. |
| TemplateTransaction.RegisterAll | src/api/java/com/direwolf20/buildinggadgets/api/template/ITemplateTransaction.java:17-19 | Registering operators on an open transaction answers `Registered` each time. It appends them in order and executes nothing. |
| TemplateTransaction.RegisterThenExecute | src/api/java/com/direwolf20/buildinggadgets/api/template/ITemplateTransaction.java:26 | After registering operators on a fresh transaction, `execute` runs exactly those operators, in registration order, over the backing template. It returns their result or their failure. |
| CharacteristicSkipping.Declaring | src/api/java/com/direwolf20/buildinggadgets/api/template/ITransactionOperator.java:99-103 | The operators selected for a characteristic all declare it and come from the list. Every operator that declares it is selected. |
| CharacteristicSkipping.DeclaringCount | src/api/java/com/direwolf20/buildinggadgets/api/template/ITransactionOperator.java:99-103 | The selection for a characteristic holds each operator that declares it exactly as many times as it was registered, duplicates included, and no operator that does not declare it. |
| CharacteristicSkipping.DeclaringAll | src/api/java/com/direwolf20/buildinggadgets/api/template/ITransactionOperator.java:99-103 | When every operator declares the characteristic, the selection is the whole list, in registration order. |
| CharacteristicSkipping.SkippingCreatePositions | src/api/java/com/direwolf20/buildinggadgets/api/template/ITransactionOperator.java:39-43 | Leaving out operators that neither declare `CreateData` nor create positions does not change phase 1. |
| CharacteristicSkipping.SkippingChainData | src/api/java/com/direwolf20/buildinggadgets/api/template/ITransactionOperator.java:34-37 | Leaving out operators that neither declare `TransformData` nor change data does not change any data chain. |
| CharacteristicSkipping.SkippingChainPos | src/api/java/com/direwolf20/buildinggadgets/api/template/ITransactionOperator.java:29-32 | Leaving out operators that neither declare `TransformPosition` nor move positions does not change any position chain. |
| CharacteristicSkipping.SkippingAgrees | src/api/java/com/direwolf20/buildinggadgets/api/template/ITemplateTransaction.java:27-29 | Suppose every operator keeps the defaults of the callbacks it does not declare. Then the engine that consults characteristics (`CharacteristicSkipping.RunPhasesSkipping`) gives the same result or failure as the reference engine on every template. |

## Left out

- Infinite `createPos` generators: the contract gives no bound, and `execute` would not terminate. `createPos` is modelled as any finite answer sequence ending in `null` or an exception.
- Concurrent `execute` (`ITemplateTransaction.java:50-51`): the model is sequential. `ConcurrentExecution` is an error kind that is never produced.
- `NullPointerException` for null arguments (`ITransactionOperator.java:17`, `ITemplateTransaction.java:21`): Dafny values cannot be null, so a null operator cannot be represented.
- The concrete `BlockPos`, `BlockData` and `ITemplate` types, and Guava's `ImmutableSet`: these become type parameters, `map<P, D>` and a Dafny `set`.
- Enum ordinals and the stability of the enum's order (`ITransactionOperator.java:23-25`): nothing in the model depends on them.
- The single-pass iteration advice (`ITemplateTransaction.java:27-28`): it is a performance hint with no observable effect. The model keeps one pass per phase. Only the characteristic-driven skipping is modelled.
- Which operator failed: the source wraps the failing operator's exception. The model records only that a callback threw, and the cause for a missing-data failure.
- The mutable state of an operator between calls: each callback is a pure function of its arguments, except `createPos`, whose successive answers are modelled as a list. One consequence: an operator registered twice replays its `createPos` list twice. A stateful Java generator registered twice would instead continue where it stopped, and typically return null at once.
- Collisions in phase 4: the source is silent about two positions moved onto one target. The model's choice is described above.
