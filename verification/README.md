# Unit-of-work context, correlation data and event streams (Axon Framework core)

A Dafny model of three small pieces of the Axon Framework core:

- **SimpleDomainEventStream** — a forward-only, single-pass cursor over a list of
  domain events. Module `EventStream` holds the cursor as an immutable value
  (`Cursor(events, pos)` with `pos <= |events|`) and its operations as pure
  functions; module `SimpleEventStream` wraps it in the mutable class
  `SimpleDomainEventStream` the Java code is, with `HasNext`/`Next` methods and the
  list and varargs constructors. `Drain` is the replay loop a repository runs
  over a stream.
- **MetaData, CurrentUnitOfWork and message construction**, as `GenericMessageTest`
  exercises them. `MessageMetaData` is an immutable `map<string, V>` with `From`
  and `MergedWith` (map union). `CurrentUnitOfWork` is the per-thread stack of
  active units of work as one explicit value, with `Set` (push), `IsStarted`,
  `Get` and `Clear`; a unit of work is its identity plus its correlation data.
  `GenericMessage.NewMessage` gives a new message the correlation data of the
  current unit of work merged with the message's own metadata, the message's
  metadata being the right operand, so that its own value is the one a map union
  keeps on a shared key.
- **The UnitOfWorkListener protocol** — the interface only fixes, in its
  documentation, how `onPrepareCommit(aggregateRoots)`, `afterCommit` and
  `onRollback` may follow one another for one listener. `UnitOfWorkListener.Step`
  and `Run` are a small phase machine over those callbacks (`onPrepareCommit`
  records whether the prepare phase was vetoed; `afterCommit` records whether the
  after-commit notification of the unit of work raised an exception, in this
  listener or another one), `ValidTrace` is the set of traces it
  accepts, and `IsLifecyclePrefix` lists the same lifecycle shapes outright; the
  two are proved equal. `onPrepareCommit` carries the aggregate roots as a
  `set<A>`, so the roots handed over never contain duplicates.

Points where the documentation and the code differ, or where the code shown
does not decide:

- Both `SimpleDomainEventStream` constructors document an `IllegalArgumentException`
  for an empty list, but the list constructor only takes the list's iterator
  (`core/src/main/java/org/axonframework/core/SimpleDomainEventStream.java:39-41`),
  so the code accepts an empty list and gives an already-exhausted stream. The
  model follows the documentation here: the documented non-empty requirement
  becomes a precondition (`requires`), and no exception is invented.
- `onRollback` takes no argument in this version of the interface; no rollback
  cause is modelled.
- Which value `mergedWith` keeps for a key both operands hold is not visible in
  this code, so no contract states it. `MergedWith` is a map union, which keeps
  the right operand's value, and `NewMessage` puts the message's own metadata on
  the right, so the body lets the message's own value win on a shared key, as
  the framework's design describes; the test only exercises disjoint keys.

Domain events, message payloads, metadata values and aggregate roots are opaque
type parameters.

## Model

| member | source | states |
|---|---|---|
| EventStream.FromList | core/src/main/java/org/axonframework/core/SimpleDomainEventStream.java:33-41 | a stream built from a non-empty list has consumed nothing and has the whole list, in order, still to deliver |
| EventStream.FromArray | core/src/main/java/org/axonframework/core/SimpleDomainEventStream.java:43-53 | the varargs constructor yields the same stream state as the list constructor over the same events |
| EventStream.HasNext | core/src/main/java/org/axonframework/core/SimpleDomainEventStream.java:59-61 | `hasNext` is true exactly when some event has not been delivered yet |
| EventStream.Next | core/src/main/java/org/axonframework/core/SimpleDomainEventStream.java:67-69 | `next` needs `hasNext`, returns the first undelivered event, moves the cursor on by exactly one and leaves the list unchanged |
| EventStream.AdvanceYieldsInOrder | core/src/main/java/org/axonframework/core/SimpleDomainEventStream.java:59-69 | n successive `next` calls return the next n events of the list in list order and leave the cursor n further on |
| EventStream.NextReturnsListInOrder | core/src/main/java/org/axonframework/core/SimpleDomainEventStream.java:39-69 | on a stream built from L, the (i+1)-th `next` call is allowed and returns L[i] |
| EventStream.FullReplayYieldsList | core/src/main/java/org/axonframework/core/SimpleDomainEventStream.java:59-69 | after exactly \|L\| `next` calls `hasNext` is false and the returned events concatenate to L |
| EventStream.NextNeverReplays | core/src/main/java/org/axonframework/core/SimpleDomainEventStream.java:67-69 | consumption is single-pass: each `next` shrinks what is left by one and keeps what was already delivered as a prefix |
| EventStream.Drain | core/src/main/java/org/axonframework/core/SimpleDomainEventStream.java:59-69 | looping `while hasNext: next` delivers exactly the remaining events in order and ends with the stream exhausted |
| SimpleEventStream.SimpleDomainEventStream.HasNext | core/src/main/java/org/axonframework/core/SimpleDomainEventStream.java:59-61 | on the stream object, `hasNext` answers whether events remain and changes no state |
| SimpleEventStream.SimpleDomainEventStream.Next | core/src/main/java/org/axonframework/core/SimpleDomainEventStream.java:67-69 | on the stream object, `next` returns the next event and advances the position by one, keeping the list |
| MessageMetaData.From | core/src/test/java/org/axonframework/messaging/GenericMessageTest.java:38 | `MetaData.from(m)` holds exactly the keys of m, each with m's value |
| MessageMetaData.FromSingleton | core/src/test/java/org/axonframework/messaging/GenericMessageTest.java:38 | `MetaData.from` of a one-entry map holds exactly that one key with that value |
| MessageMetaData.MergedWith | core/src/test/java/org/axonframework/messaging/GenericMessageTest.java:58-60 | a merge holds the keys of both operands, and a key held by one operand only keeps that operand's value |
| MessageMetaData.MergeDisjointPointwise | core/src/test/java/org/axonframework/messaging/GenericMessageTest.java:59-60 | over disjoint keys each merged value comes from whichever operand holds the key |
| MessageMetaData.MergeDisjointCommutes | core/src/test/java/org/axonframework/messaging/GenericMessageTest.java:59-60 | over disjoint keys the order of merging does not matter |
| MessageMetaData.MergeEmptyIdentity | core/src/test/java/org/axonframework/messaging/GenericMessageTest.java:56 | merging with the empty metadata on either side changes nothing |
| MessageMetaData.MergeAssociative | core/src/test/java/org/axonframework/messaging/GenericMessageTest.java:59-60 | a chain of merges in a fixed order gives the same metadata however it is grouped |
| CurrentUnitOfWork.IsStarted | core/src/test/java/org/axonframework/messaging/GenericMessageTest.java:49 | `isStarted` is true exactly when some unit of work is on the stack |
| CurrentUnitOfWork.Get | core/src/test/java/org/axonframework/messaging/GenericMessageTest.java:50 | `get` returns the top of the stack, and fails with "no unit of work active" exactly when the stack is empty |
| CurrentUnitOfWork.Set | core/src/test/java/org/axonframework/messaging/GenericMessageTest.java:44 | `set(u)` makes u the new top and keeps the units below it unchanged |
| CurrentUnitOfWork.Clear | core/src/test/java/org/axonframework/messaging/GenericMessageTest.java:50 | `clear(u)` pops exactly the top when it is u, and otherwise fails (no unit active, or u not the current one) |
| CurrentUnitOfWork.CorrelationData | core/src/test/java/org/axonframework/messaging/GenericMessageTest.java:43 | the ambient correlation data is the current unit of work's, or empty when none is active |
| CurrentUnitOfWork.SetThenGet | core/src/test/java/org/axonframework/messaging/GenericMessageTest.java:42-44 | after `set(u)`, `isStarted()` is true and `get()` returns u |
| CurrentUnitOfWork.ClearUndoesSet | core/src/test/java/org/axonframework/messaging/GenericMessageTest.java:44-50 | `clear(u)` right after `set(u)` gives back exactly the stack before |
| CurrentUnitOfWork.NestedClearRestoresOuter | core/src/test/java/org/axonframework/messaging/GenericMessageTest.java:49-51 | with an inner unit on an outer one, clearing the outer fails and clearing the inner makes the outer current again |
| CurrentUnitOfWork.TearDown | core/src/test/java/org/axonframework/messaging/GenericMessageTest.java:49-51 | the loop `while isStarted: clear(get())` pops one unit per pass, runs once per active unit and ends with the stack empty |
| GenericMessage.NewMessage | core/src/test/java/org/axonframework/messaging/GenericMessageTest.java:58-60 | a new message keeps its payload and carries its own metadata keys plus the correlation keys, each non-shared key with its source's value; without an active unit of work it keeps its own metadata |
| GenericMessage.NewMessageWithoutMetaData | core/src/test/java/org/axonframework/messaging/GenericMessageTest.java:56 | a message built without metadata carries exactly the ambient correlation data |
| GenericMessage.CorrelationDataAddedToMessage | core/src/test/java/org/axonframework/messaging/GenericMessageTest.java:56 | a message built without metadata while u is current carries exactly u's correlation data |
| GenericMessage.CorrelationDataMergedIntoMessage | core/src/test/java/org/axonframework/messaging/GenericMessageTest.java:58-60 | a message built with metadata disjoint from the correlation data carries that metadata merged with the correlation data, in either order |
| GenericMessage.CorrelationTestScenario | core/src/test/java/org/axonframework/messaging/GenericMessageTest.java:38-60 | with correlation data {"foo": "bar"}, the two messages of the test carry {"foo": "bar"} and {"whatever": w, "foo": "bar"} |
| UnitOfWorkListener.Step | core/src/main/java/org/axonframework/unitofwork/UnitOfWorkListener.java:29-54 | the phase machine of the protocol: `onPrepareCommit` only as the first callback, `afterCommit` only after a passed prepare phase, `onRollback` at any point before the lifecycle has ended, and every callback moves the listener closer to the end |
| UnitOfWorkListener.ValidTrace | core/src/main/java/org/axonframework/unitofwork/UnitOfWorkListener.java:29-54 | the callbacks a listener may have received so far are those the phase machine accepts from the start; there are never more than three |
| UnitOfWorkListener.RunWithinBudget | core/src/main/java/org/axonframework/unitofwork/UnitOfWorkListener.java:29-54 | a listener receives at most three callbacks in one lifecycle, fewer the further it has come |
| UnitOfWorkListener.ValidTraceIffLifecycle | core/src/main/java/org/axonframework/unitofwork/UnitOfWorkListener.java:31-54 | the traces the phase machine allows are exactly the prefixes of the listed lifecycle shapes: rollback; vetoed commit; commit failing after prepare; commit; commit whose after-commit failed |
| UnitOfWorkListener.ValidTracePrefixClosed | core/src/main/java/org/axonframework/unitofwork/UnitOfWorkListener.java:29-54 | every prefix of an allowed sequence of callbacks is allowed |
| UnitOfWorkListener.AfterCommitFollowsSuccessfulPrepare | core/src/main/java/org/axonframework/unitofwork/UnitOfWorkListener.java:31-50 | `afterCommit` only comes second, directly after an `onPrepareCommit` that did not fail |
| UnitOfWorkListener.FailedPrepareBlocksAfterCommit | core/src/main/java/org/axonframework/unitofwork/UnitOfWorkListener.java:48-50 | no `afterCommit` follows an `onPrepareCommit` that failed |
| UnitOfWorkListener.RollbackAfterCommitOnlyIfItThrew | core/src/main/java/org/axonframework/unitofwork/UnitOfWorkListener.java:31-34 | `onRollback` directly after `afterCommit` happens only when that after-commit notification raised an exception (in this listener or another) |
| UnitOfWorkListener.SuccessfulAfterCommitIsFinal | core/src/main/java/org/axonframework/unitofwork/UnitOfWorkListener.java:31-38 | nothing follows an `afterCommit` whose notification round raised no exception |
| UnitOfWorkListener.EachCallbackAtMostOnce | core/src/main/java/org/axonframework/unitofwork/UnitOfWorkListener.java:29-54 | each kind of callback reaches a listener at most once per unit of work |
| UnitOfWorkListener.RollbackAllowedOnRollbackAndFailedCommit | core/src/main/java/org/axonframework/unitofwork/UnitOfWorkListener.java:40-42 | `onRollback` is allowed on a plain rollback and after a failed commit (vetoed prepare, failure after prepare, after-commit notification that raised an exception), but not after an after-commit notification that succeeded |

## Left out

- Java `Iterator` internals and `NoSuchElementException`: `next` past the end is excluded by the precondition `HasNext`.
- The stream works on a copy of its source taken at construction. The Java stream keeps a live iterator over the list (or over `Arrays.asList` of the varargs array), so changes the caller makes to the source afterwards (a write to the array, which Java's `next` would then return, or a structural change to the list, which makes Java's `next` throw `ConcurrentModificationException`) are not modelled.
- The aggregate identifier that the varargs constructor's documentation says is read from the first event: the code never reads it.
- The thread-local storage behind CurrentUnitOfWork: modelled as one explicit stack value; isolation between threads is a concurrency matter. CurrentUnitOfWork.java itself is not part of this model; the two failure cases of `get`/`clear` (no unit of work active; clearing a unit that is not the current one) are assumed behaviour of that class, since the test never makes either fail.
- MessageMetaData.MergedWith: states nothing about a key both operands hold, because the MetaData source is not part of this model and the test only merges disjoint keys.
- GenericMessage.NewMessage: its contract states nothing about a key held by both the message's metadata and the correlation data (its body keeps the message's own value), for the same reason.
- The UnitOfWork commit/rollback engine, listener registration order, persistence, event dispatching and aggregate contents: not part of the code modelled here; aggregate roots and payloads are opaque type parameters.
- Mockito mocks and JUnit set-up/tear-down plumbing: only the behaviour the test asserts is kept; the mock unit of work is a value with an identity and correlation data.
- `HashMap` copies and Java `equals`: Dafny map and datatype equality stand in for them.
