# Dirty-session flush coordinator

This project models `DirtySessionMethodInterceptor`. It is a method interceptor that tracks, per
transaction, whether any write has touched the Hibernate session since the last flush. With that
knowledge it can tell the store to skip its own "flush if required" check before a query.

The flush state of each transaction (`FlushData`) is a dirty counter plus a stack of
`(method name, is annotated)` frames. Each intercepted call works in this order:

1. Warn once per method name that has no flush annotation.
2. Flush before the call, if the annotation asks for it and the session is dirty.
3. Push a frame.
4. Run the wrapped call.
5. On a normal return, either flush if dirty or add one to the dirty count.
6. Pop the frame in a `finally` block.

The read path asks `setQueryFlushMode` what to do. When every frame on the stack is annotated,
it flushes if dirty, resets the counter and sets the query to MANUAL. Otherwise it does nothing.
`flushSession` is the manual flush: forced, or only when dirty.

The project has four files:

- `flush_spec.dfy` (module `FlushSpec`): the specification, as values. An `Env` is everything
  the coordinator can observe:
  - the dirty count and the frame stack;
  - the session's successful flushes, whether its flushes fail, and the flush mode of each
    query issued on it;
  - the set of unannotated method names and the log of warnings.

  Every operation is a function from an `Env` to a new `Env` and an `Outcome` (a normal
  return or the exception that propagates). The wrapped code of an intercepted call is a
  script of `Step`s: nested intercepted calls, queries, manual flushes, and `Catch` blocks
  that swallow an exception. This gives a recursive model of arbitrarily nested `invoke`
  calls whose `proceed` returns or throws. The contracts of `Invoke`, `RunStep` and
  `RunSteps` state that the frame stack is balanced under any nesting and any failure.
- `dirty_session.dfy` (module `DirtySession`): the objects and their in-place updates:
  - `FlushData`, with the counter and the stack as fields and methods that mutate them;
  - `Session` and `Query`, abstract store objects;
  - `Transaction`, whose `flushData` field is the transaction-local resource, bound lazily
    by `GetFlushData`;
  - `Interceptor`, which owns the unannotated-name set and the warning log.

  The methods of `Interceptor` (`FlushSessionWith`, `FlushSession`, `SetQueryFlushMode`,
  `Invoke` and its parts) are proved equal to their `FlushSpec` functions through the ghost
  function `Interceptor.Snapshot`, so every property proved about the specification holds of
  them too. The smaller methods of `FlushData`, `Session`, `GetFlushData` and
  `Interceptor.AddUnannotated` state their effect on the fields directly.
- `flush_properties.dfy` (module `FlushProperties`): the properties, proved on the
  specification. These include warn-once, no flush under an unannotated frame,
  flush-after winning over mark-dirty, and N writes giving a count of N.
- `scenarios.dfy` (module `Scenarios`): the same scenarios, proved on fresh objects.

Two choices in the code shape the model. A flush-before calls the unforced
`flushSession(session)` (line 303), so it flushes only a dirty session
(`FlushBeforeOnlyWhenDirty`). When both flush-after and mark-dirty are set, the `if / else if`
of lines 325-332 runs only the flush, so flush-after wins (`FlushAfterWins`).

## Model

All source paths are under `root/projects/repository/source/java/org/alfresco/repo/domain/hibernate/`; the table writes them in full.

| member | source | states |
|---|---|---|
| DirtySession.FlushData.constructor | root/projects/repository/source/java/org/alfresco/repo/domain/hibernate/DirtySessionMethodInterceptor.java:94-98 | new flush data has dirty count 0 and an empty method stack |
| DirtySession.FlushData.IncrementDirtyCount | root/projects/repository/source/java/org/alfresco/repo/domain/hibernate/DirtySessionMethodInterceptor.java:109-112 | the count goes up by exactly one and the stack is untouched |
| DirtySession.FlushData.IsDirty | root/projects/repository/source/java/org/alfresco/repo/domain/hibernate/DirtySessionMethodInterceptor.java:113-116 | the answer is true exactly when the dirty count is positive |
| DirtySession.FlushData.ResetDirtyCount | root/projects/repository/source/java/org/alfresco/repo/domain/hibernate/DirtySessionMethodInterceptor.java:117-120 | the count becomes 0 and the stack is untouched |
| DirtySession.FlushData.PushMethod | root/projects/repository/source/java/org/alfresco/repo/domain/hibernate/DirtySessionMethodInterceptor.java:121-124 | the stack gains exactly the frame (name, annotated) on top; the count is untouched |
| DirtySession.FlushData.PopMethod | root/projects/repository/source/java/org/alfresco/repo/domain/hibernate/DirtySessionMethodInterceptor.java:125-128 | on a non-empty stack it returns the top frame, and the old stack is the new stack plus that frame, so a push followed by a pop restores the stack and returns the pushed frame; an empty stack throws and stays empty |
| DirtySession.FlushData.CurrentMethod | root/projects/repository/source/java/org/alfresco/repo/domain/hibernate/DirtySessionMethodInterceptor.java:129-132 | returns the top frame without removing it; an empty stack throws |
| DirtySession.FlushData.IsStackAnnotated | root/projects/repository/source/java/org/alfresco/repo/domain/hibernate/DirtySessionMethodInterceptor.java:137-149 | the early-return scan answers true iff every frame is annotated, so it is vacuously true on an empty stack |
| DirtySession.Session.Flush | root/projects/repository/source/java/org/alfresco/repo/domain/hibernate/DirtySessionMethodInterceptor.java:201 | a session flush either counts one flush or throws a store error, and leaves the query log alone |
| DirtySession.Session.Execute | root/projects/repository/source/java/org/alfresco/repo/domain/hibernate/DirtySessionMethodInterceptor.java:170-172 | issuing a query appends the mode it carries at that moment to the session's query log and performs no flush |
| DirtySession.GetFlushData | root/projects/repository/source/java/org/alfresco/repo/domain/hibernate/DirtySessionMethodInterceptor.java:155-164 | returns the flush data bound to the transaction; on first use it creates, binds and returns a fresh empty one, and later it returns the same object |
| DirtySession.Interceptor.constructor | root/projects/repository/source/java/org/alfresco/repo/domain/hibernate/DirtySessionMethodInterceptor.java:79-83 | the unannotated-name set starts empty, with no warnings |
| DirtySession.Interceptor.AddUnannotated | root/projects/repository/source/java/org/alfresco/repo/domain/hibernate/DirtySessionMethodInterceptor.java:288-291 | the name is added to the set; the result is true, and a warning is logged, exactly when it was not there before |
| DirtySession.Interceptor.FlushSessionWith | root/projects/repository/source/java/org/alfresco/repo/domain/hibernate/DirtySessionMethodInterceptor.java:228-265 | new state and outcome equal `FlushSpec.FlushSession` of the old state: forced always flushes, unforced only when dirty, and the count is reset after the flush returns |
| DirtySession.Interceptor.FlushSession | root/projects/repository/source/java/org/alfresco/repo/domain/hibernate/DirtySessionMethodInterceptor.java:215-218 | the one-argument overload behaves exactly as the unforced flush |
| DirtySession.Interceptor.SetQueryFlushMode | root/projects/repository/source/java/org/alfresco/repo/domain/hibernate/DirtySessionMethodInterceptor.java:172-207 | new state, outcome and query mode equal `FlushSpec.SetQueryFlushMode` of the old state and the query's old mode |
| DirtySession.Interceptor.Invoke | root/projects/repository/source/java/org/alfresco/repo/domain/hibernate/DirtySessionMethodInterceptor.java:272-342 | new state and outcome equal `FlushSpec.Invoke` of the old state for the call's annotation, wrapped code and failure; the flush data stays bound to the transaction |
| DirtySession.Interceptor.Enter | root/projects/repository/source/java/org/alfresco/repo/domain/hibernate/DirtySessionMethodInterceptor.java:277-311 | the part before the wrapped call equals `FlushSpec.Entered`: warn once if unannotated, flush-before if dirty, push the frame |
| DirtySession.Interceptor.Leave | root/projects/repository/source/java/org/alfresco/repo/domain/hibernate/DirtySessionMethodInterceptor.java:323-338 | after the wrapped call, flush-after or mark-dirty runs only on a normal return, and the frame is always popped |
| DirtySession.Interceptor.Proceed | root/projects/repository/source/java/org/alfresco/repo/domain/hibernate/DirtySessionMethodInterceptor.java:323 | the wrapped code runs its steps in order and stops at the first exception, as `FlushSpec.RunSteps` says |
| DirtySession.Interceptor.RunStep | root/projects/repository/source/java/org/alfresco/repo/domain/hibernate/DirtySessionMethodInterceptor.java:323 | one step of wrapped code, as `FlushSpec.RunStep`: a nested intercepted call, a query with its mode resolved, a manual flush, or a caught block |
| FlushSpec.IsDirty | root/projects/repository/source/java/org/alfresco/repo/domain/hibernate/DirtySessionMethodInterceptor.java:113-116 | the session counts as dirty exactly when the dirty count is not zero |
| FlushSpec.IncrementDirtyCount | root/projects/repository/source/java/org/alfresco/repo/domain/hibernate/DirtySessionMethodInterceptor.java:109-112 | the count goes up by exactly one, so the session is dirty afterwards, and nothing else changes |
| FlushSpec.ResetDirtyCount | root/projects/repository/source/java/org/alfresco/repo/domain/hibernate/DirtySessionMethodInterceptor.java:117-120 | the session is clean afterwards and nothing else changes |
| FlushSpec.PushMethod | root/projects/repository/source/java/org/alfresco/repo/domain/hibernate/DirtySessionMethodInterceptor.java:121-124 | the stack grows by exactly the frame (name, annotated) on top, the frames below are untouched, and nothing else changes |
| FlushSpec.StackAnnotated | root/projects/repository/source/java/org/alfresco/repo/domain/hibernate/DirtySessionMethodInterceptor.java:137-149 | true exactly when every frame on the stack is annotated, so an empty stack counts as annotated |
| FlushSpec.EffectivePolicy | root/projects/repository/source/java/org/alfresco/repo/domain/hibernate/DirtySessionMethodInterceptor.java:279-287 | with no annotation all three flags are false; otherwise they are the annotation's |
| FlushSpec.StoreFlush | root/projects/repository/source/java/org/alfresco/repo/domain/hibernate/DirtySessionMethodInterceptor.java:201 | one session flush: it returns normally exactly when the store does not fail, adding one flush and changing nothing else; otherwise it throws a store error and changes nothing |
| FlushSpec.FlushSession | root/projects/repository/source/java/org/alfresco/repo/domain/hibernate/DirtySessionMethodInterceptor.java:228-265 | a manual flush throws only when it attempted a flush (forced, or unforced on a dirty session) and then changes nothing; on a normal return the session is clean, the flush count rose by one exactly when forced or dirty, and the stack and issued queries are unchanged |
| FlushSpec.SetQueryFlushMode | root/projects/repository/source/java/org/alfresco/repo/domain/hibernate/DirtySessionMethodInterceptor.java:172-207 | on a partly annotated stack the resolver changes nothing and keeps the query's mode; on a fully annotated stack a normal return leaves the session clean and the query MANUAL, after exactly one flush iff it was dirty; it throws only on a dirty session and then leaves state and mode as they were |
| FlushSpec.NoteUnannotated | root/projects/repository/source/java/org/alfresco/repo/domain/hibernate/DirtySessionMethodInterceptor.java:288-291 | the name ends up in the unannotated set, the warning log grows by that name exactly when it was not in the set before, and nothing else changes |
| FlushSpec.Entered | root/projects/repository/source/java/org/alfresco/repo/domain/hibernate/DirtySessionMethodInterceptor.java:277-311 | after the part before the wrapped call, a normal return has pushed exactly the frame (name, annotation present) on the old stack; a failed flush-before throws a store error with nothing pushed; an unannotated name is always in the set afterwards |
| FlushSpec.AfterProceed | root/projects/repository/source/java/org/alfresco/repo/domain/hibernate/DirtySessionMethodInterceptor.java:325-332 | after a normal return of the wrapped call the stack is untouched; flush-after leaves a clean session when it returns; otherwise mark-dirty adds exactly one to the count and returns; with neither nothing changes |
| FlushSpec.PopAfter | root/projects/repository/source/java/org/alfresco/repo/domain/hibernate/DirtySessionMethodInterceptor.java:334-338 | the `finally` pop removes exactly the top frame and keeps the pending outcome; on an empty stack it throws an empty-stack error instead |
| FlushSpec.Invoke | root/projects/repository/source/java/org/alfresco/repo/domain/hibernate/DirtySessionMethodInterceptor.java:272-342 | an intercepted call leaves the frame stack exactly as it found it, on return and on throw, for any nesting of inner calls, and its pop never meets an empty stack |
| FlushSpec.IssueQuery | root/projects/repository/source/java/org/alfresco/repo/domain/hibernate/DirtySessionMethodInterceptor.java:172-207 | a read path on a partly annotated stack issues one AUTO query and changes nothing else; on a fully annotated stack a normal return issues one MANUAL query on a clean session; a failing flush issues nothing and changes nothing |
| FlushSpec.RunStep | root/projects/repository/source/java/org/alfresco/repo/domain/hibernate/DirtySessionMethodInterceptor.java:323 | every step of wrapped code leaves the frame stack as it found it and never throws an empty-stack error |
| FlushSpec.RunSteps | root/projects/repository/source/java/org/alfresco/repo/domain/hibernate/DirtySessionMethodInterceptor.java:323 | any script of wrapped code, stopped early by an exception or not, leaves the frame stack as it found it and never throws an empty-stack error |
| FlushProperties.InvokeAfterProceed | root/projects/repository/source/java/org/alfresco/repo/domain/hibernate/DirtySessionMethodInterceptor.java:323-332 | relative to the state after the wrapped call: on a throw the count and flushes are unchanged and the exception propagates; flush-after flushes iff dirty and ends at 0; otherwise mark-dirty adds exactly 1; otherwise nothing |
| FlushProperties.FlushAfterWins | root/projects/repository/source/java/org/alfresco/repo/domain/hibernate/DirtySessionMethodInterceptor.java:325-332 | a flush-after call that returns normally leaves the session clean, even when mark-dirty is also set |
| FlushProperties.FlushBeforeOnlyWhenDirty | root/projects/repository/source/java/org/alfresco/repo/domain/hibernate/DirtySessionMethodInterceptor.java:301-304 | flush-before flushes only a dirty session, resets its count, and happens before the frame is pushed; a failing flush throws before any push |
| FlushProperties.Writes | root/projects/repository/source/java/org/alfresco/repo/domain/hibernate/DirtySessionMethodInterceptor.java:329-332 | the script of N write calls has one annotated mark-dirty call per name |
| FlushProperties.WritesCount | root/projects/repository/source/java/org/alfresco/repo/domain/hibernate/DirtySessionMethodInterceptor.java:109-112 | N mark-dirty calls with no flush between them raise the count by exactly N and change nothing else |
| FlushProperties.QueryResolverEffect | root/projects/repository/source/java/org/alfresco/repo/domain/hibernate/DirtySessionMethodInterceptor.java:178-206 | a partly annotated stack makes the resolver a no-op (no flush, same count, same query mode); a fully annotated dirty stack flushes once, resets to 0 and sets MANUAL; a clean one only sets MANUAL; a failing flush throws with the query untouched |
| FlushProperties.FlushSessionEffect | root/projects/repository/source/java/org/alfresco/repo/domain/hibernate/DirtySessionMethodInterceptor.java:228-265 | forced flushes once, unforced flushes once iff dirty; after a normal return the session is not dirty and nothing else changed; a failed flush leaves the count as it was |
| FlushProperties.InvokeUnderUnannotated | root/projects/repository/source/java/org/alfresco/repo/domain/hibernate/DirtySessionMethodInterceptor.java:178-187 | under an unannotated frame, or inside an unannotated call, every query issued at any depth keeps the store's AUTO mode |
| FlushProperties.RunStepUnderUnannotated | root/projects/repository/source/java/org/alfresco/repo/domain/hibernate/DirtySessionMethodInterceptor.java:178-187 | one step of wrapped code on a partly annotated stack issues only AUTO queries |
| FlushProperties.RunStepsUnderUnannotated | root/projects/repository/source/java/org/alfresco/repo/domain/hibernate/DirtySessionMethodInterceptor.java:178-187 | any script of wrapped code on a partly annotated stack issues only AUTO queries |
| FlushProperties.OnlyAutoAddedTransitive | root/projects/repository/source/java/org/alfresco/repo/domain/hibernate/DirtySessionMethodInterceptor.java:178-187 | "only AUTO queries were added" composes over successive steps |
| FlushProperties.StackAnnotatedPrefix | root/projects/repository/source/java/org/alfresco/repo/domain/hibernate/DirtySessionMethodInterceptor.java:137-149 | a fully annotated stack with a frame on top has a fully annotated rest and an annotated top frame |
| FlushProperties.NoteUnannotatedWarnsOnce | root/projects/repository/source/java/org/alfresco/repo/domain/hibernate/DirtySessionMethodInterceptor.java:288-291 | noting an unannotated name only grows the set and the warning log, keeps warn-once, and leaves the name in the set |
| FlushProperties.InvokeWarnsOnce | root/projects/repository/source/java/org/alfresco/repo/domain/hibernate/DirtySessionMethodInterceptor.java:279-291 | across any nested call the unannotated set only grows, the warning log is only extended, and each name in the set stays warned about exactly once |
| FlushProperties.RunStepWarnsOnce | root/projects/repository/source/java/org/alfresco/repo/domain/hibernate/DirtySessionMethodInterceptor.java:288-291 | one step of wrapped code keeps warn-once, and the set and the log only grow |
| FlushProperties.RunStepsWarnOnce | root/projects/repository/source/java/org/alfresco/repo/domain/hibernate/DirtySessionMethodInterceptor.java:288-291 | any script of wrapped code keeps warn-once, and the set and the log only grow |
| FlushProperties.WarnEvolvesTransitive | root/projects/repository/source/java/org/alfresco/repo/domain/hibernate/DirtySessionMethodInterceptor.java:288-291 | the grow-only, warn-once relation composes over successive steps |
| FlushProperties.NoSecondWarning | root/projects/repository/source/java/org/alfresco/repo/domain/hibernate/DirtySessionMethodInterceptor.java:288-291 | a name already in the set is never warned about again, whatever runs next |
| FlushProperties.ThreeWrites | root/projects/repository/source/java/org/alfresco/repo/domain/hibernate/DirtySessionMethodInterceptor.java:329-332 | three mark-dirty "write" calls from a fresh state give count 3 and an empty stack |
| FlushProperties.WriteThenQuery | root/projects/repository/source/java/org/alfresco/repo/domain/hibernate/DirtySessionMethodInterceptor.java:198-206 | a write then a query: exactly one flush, count 0, and the query issued in MANUAL mode |
| FlushProperties.UnannotatedTwiceWarnedOnce | root/projects/repository/source/java/org/alfresco/repo/domain/hibernate/DirtySessionMethodInterceptor.java:288-291 | an unannotated method not seen before, intercepted twice, adds exactly one warning for its name and puts the name in the set |
| FlushProperties.LegacyOpWarnedOnce | root/projects/repository/source/java/org/alfresco/repo/domain/hibernate/DirtySessionMethodInterceptor.java:288-291 | an unannotated "legacyOp" called twice produces exactly one warning |
| FlushProperties.InnerFailureCaught | root/projects/repository/source/java/org/alfresco/repo/domain/hibernate/DirtySessionMethodInterceptor.java:334-338 | an inner call that throws, caught by the outer call's code, is popped in its `finally`; the outer call completes with an empty stack and counts exactly one write |
| Scenarios.ThreeWrites | root/projects/repository/source/java/org/alfresco/repo/domain/hibernate/DirtySessionMethodInterceptor.java:329-332 | on fresh objects, three write interceptions leave dirty count 3 and no frame |
| Scenarios.WriteThenQuery | root/projects/repository/source/java/org/alfresco/repo/domain/hibernate/DirtySessionMethodInterceptor.java:198-206 | on fresh objects, a write then the resolver gives one session flush, count 0 and a MANUAL query |
| Scenarios.LegacyOpTwice | root/projects/repository/source/java/org/alfresco/repo/domain/hibernate/DirtySessionMethodInterceptor.java:288-291 | on fresh objects, an unannotated method intercepted twice is warned about once and recorded in the set |
| Scenarios.FailingWrite | root/projects/repository/source/java/org/alfresco/repo/domain/hibernate/DirtySessionMethodInterceptor.java:323-338 | on fresh objects, a write whose wrapped code throws propagates the exception, pops its frame and leaves the count at 0 |

## Left out

- The Hibernate `Session` and `Query` are foreign objects. `Session` keeps only a count of successful flushes, a fixed flag saying whether its flushes fail, and a log of the flush mode each issued query carried. `Query` keeps only its flush mode.
- Store failures come from that one fixed flag, so either every flush of a session fails or none does. A flush that fails part-way through is not modelled.
- `getSession(false)` (lines 295-299) is not modelled: the session is a parameter of every method.
- The annotation lookup through reflection (`method.getAnnotation`, line 278) is replaced by an `Option<Policy>` parameter. The method name is a plain string.
- The wrapped call (`invocation.proceed()`) is described by a `Step` script: nested intercepted calls, queries, manual flushes, caught blocks, and a flag saying whether it throws in the end. Return values of the wrapped call are not modelled. All exceptions thrown by the wrapped code are treated as one kind.
- `AlfrescoTransactionSupport` resource binding becomes the `flushData` field of a `Transaction` object. The resource key, and discarding the resource when the transaction ends, are not modelled.
- The static `unannotatedMethodNames` set becomes a field of the single `Interceptor` object. The thread safety of `Collections.synchronizedSet` is not modelled, because the model is sequential.
- Every `Step` script runs inside one `Transaction`. Java code that starts a new transaction inside an intercepted call gets fresh flush data there (lines 155-164), with an empty stack. The model has no step for that, so `InvokeUnderUnannotated` speaks of queries within one transaction only.
- Nothing stops a caller from creating a second `Interceptor` with its own name set and warning log. In Java the set is static (line 79), so every interceptor shares it. The warn-once lemmas hold for each `Interceptor` object separately.
- Logging: the `warn` call becomes an entry appended to `Interceptor.warnings`. The debug messages and `FlushData.toString` are left out.
- DirtySession.FlushData.IncrementDirtyCount: does not model the 32-bit wrap-around of Java's `int dirtyCount`. The count is an unbounded natural number, because about two billion writes between flushes would be needed to reach the wrap.
- `DocumentDetailsBean.java`, `SectionType.java`, `ContentWebService.java` and `RecentlyModifiedDashletTest.java` are not part of this model. They are UI, SOAP and repository-policy plumbing and a browser-driven test, and they do not touch the flush coordinator.
