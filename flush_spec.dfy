/**
 * Value-level specification of the dirty-session flush coordinator.
 *
 * The state one unit of work can observe is an `Env`: the transaction's flush
 * data (dirty counter and method stack), the store session (how many flushes it
 * has performed, whether its flushes fail, and the flush mode of every query
 * issued on it) and the process-wide record of unannotated method names
 * (the set, and the log of warnings emitted when a name was first added).
 *
 * Every operation of the interceptor is a function from an `Env` to a result
 * `Env` and an `Outcome` (normal return or the exception that propagates).
 * The wrapped call of an intercepted method is described by a script of
 * `Step`s, so nested interceptions, queries and manual flushes issued by the
 * wrapped code are part of the model.
 */
module FlushSpec {

  datatype Option<T> = None | Some(value: T)

  /** One entry of the method stack: the method's name and whether it carries a policy annotation. */
  datatype Frame = Frame(methodName: string, isAnnotated: bool)

  /** The three flags of the flush annotation of a method. */
  datatype Policy = Policy(flushBefore: bool, flushAfter: bool, markDirty: bool)

  /** What an unannotated method is treated as: no flush, no dirty mark. */
  const NoPolicy := Policy(false, false, false)

  /** Flush mode of a store query: AUTO is the store's default (flush-if-required before querying). */
  datatype FlushMode = Auto | Manual

  /** The exceptions that can leave an operation of the model. */
  datatype Throwable =
    | HibernateError     // a flush of the store session failed
    | ProceedError       // the wrapped method itself threw
    | EmptyStackError    // pop or peek on an empty method stack

  datatype Outcome = Ok | Thrown(error: Throwable)

  datatype Result<T> = Success(value: T) | Failure(error: Throwable)

  datatype Env = Env(
    dirtyCount: nat,
    stack: seq<Frame>,
    flushes: nat,
    storeFails: bool,
    unannotated: set<string>,
    warnings: seq<string>,
    queries: seq<FlushMode>)

  datatype Res = Res(env: Env, outcome: Outcome)

  datatype QueryRes = QueryRes(env: Env, outcome: Outcome, mode: FlushMode)

  /**
   * What the wrapped code of an intercepted method does, in order:
   * - `Call`: invoke another intercepted method with the given annotation (or none);
   *   its own wrapped code runs `body` and then throws when `fails` holds;
   * - `Query`: a read path creates a query (mode AUTO), has its flush mode resolved
   *   and issues it on the session;
   * - `Flush`: a manual flush of the session, forced or not;
   * - `Catch`: run `body`, catching any exception it throws.
   * An exception thrown by a step skips the steps after it.
   */
  datatype Step =
    | Call(name: string, policy: Option<Policy>, body: seq<Step>, fails: bool)
    | Query
    | Flush(force: bool)
    | Catch(body: seq<Step>)

  // ---------------------------------------------------------------------------
  // Flush data

  /** The session is dirty when at least one write was counted since the last flush. */
  predicate IsDirty(e: Env): (dirty: bool)
    ensures !dirty <==> e.dirtyCount == 0
  {
    e.dirtyCount > 0
  }

  /** One more write; the session is then dirty and nothing else changes. */
  function IncrementDirtyCount(e: Env): (r: Env)
    ensures r.dirtyCount == e.dirtyCount + 1 && IsDirty(r)
    ensures r == e.(dirtyCount := r.dirtyCount)
  {
    e.(dirtyCount := e.dirtyCount + 1)
  }

  /** The session is clean again; nothing else changes. */
  function ResetDirtyCount(e: Env): (r: Env)
    ensures !IsDirty(r)
    ensures r == e.(dirtyCount := r.dirtyCount)
  {
    e.(dirtyCount := 0)
  }

  /** The frame goes on top of the stack; the frames below and the rest of the state are unchanged. */
  function PushMethod(e: Env, methodName: string, isAnnotated: bool): (r: Env)
    ensures |r.stack| == |e.stack| + 1 && r.stack[..|e.stack|] == e.stack
    ensures r.stack[|e.stack|] == Frame(methodName, isAnnotated)
    ensures r == e.(stack := r.stack)
  {
    e.(stack := e.stack + [Frame(methodName, isAnnotated)])
  }

  /** Every frame on the stack is annotated (vacuously so for an empty stack). */
  predicate StackAnnotated(stack: seq<Frame>): (annotated: bool)
    ensures |stack| == 0 ==> annotated
    ensures annotated <==> forall f :: f in stack ==> f.isAnnotated
  {
    forall i :: 0 <= i < |stack| ==> stack[i].isAnnotated
  }

  // ---------------------------------------------------------------------------
  // Session flushes

  /** One flush of the store session: fails with `HibernateError` when the store fails. */
  function StoreFlush(e: Env): (r: Res)
    ensures r.outcome.Ok? <==> !e.storeFails
    ensures r.outcome.Ok? ==> r.env == e.(flushes := e.flushes + 1)
    ensures r.outcome.Thrown? ==> r == Res(e, Thrown(HibernateError))
  {
    if e.storeFails then Res(e, Thrown(HibernateError))
    else Res(e.(flushes := e.flushes + 1), Ok)
  }

  /** Manual flush: forced always flushes, unforced only when dirty; the count is reset after a flush returns. */
  function FlushSession(e: Env, force: bool): (r: Res)
    ensures r.outcome.Ok? ==> !IsDirty(r.env) && r.env.stack == e.stack && r.env.queries == e.queries
    ensures r.outcome.Ok? ==> r.env.flushes == e.flushes + (if force || IsDirty(e) then 1 else 0)
    ensures r.outcome.Thrown? ==> (force || IsDirty(e)) && r == Res(e, Thrown(HibernateError))
  {
    if force || IsDirty(e) then
      var r := StoreFlush(e);
      if r.outcome.Ok? then Res(ResetDirtyCount(r.env), Ok) else r
    else Res(e, Ok)
  }

  /**
   * The query flush-mode resolver, for a query whose flush mode is `mode`:
   * nothing happens unless every frame is annotated; otherwise flush if dirty
   * and set the query to MANUAL.
   */
  function SetQueryFlushMode(e: Env, mode: FlushMode): (r: QueryRes)
    ensures !StackAnnotated(e.stack) ==> r == QueryRes(e, Ok, mode)
    ensures StackAnnotated(e.stack) && r.outcome.Ok? ==>
              r.mode == Manual && !IsDirty(r.env) && r.env.stack == e.stack &&
              r.env.flushes == e.flushes + (if IsDirty(e) then 1 else 0)
    ensures r.outcome.Thrown? ==> IsDirty(e) && r == QueryRes(e, Thrown(HibernateError), mode)
  {
    if !StackAnnotated(e.stack) then QueryRes(e, Ok, mode)
    else if IsDirty(e) then
      var r := StoreFlush(e);
      if r.outcome.Ok? then QueryRes(ResetDirtyCount(r.env), Ok, Manual)
      else QueryRes(r.env, r.outcome, mode)
    else QueryRes(e, Ok, Manual)
  }

  // ---------------------------------------------------------------------------
  // Interception

  /** The flags an intercepted call acts on: the annotation's, or all false when there is none. */
  function EffectivePolicy(annotation: Option<Policy>): (p: Policy)
    ensures annotation.None? ==> !p.flushBefore && !p.flushAfter && !p.markDirty
    ensures annotation.Some? ==> p == annotation.value
  {
    if annotation.Some? then annotation.value else NoPolicy
  }

  /** Add the name to the unannotated set, emitting a warning when it was not there yet. */
  function NoteUnannotated(e: Env, methodName: string): (r: Env)
    ensures r.unannotated == e.unannotated + {methodName}
    ensures r.warnings == if methodName in e.unannotated then e.warnings else e.warnings + [methodName]
    ensures r == e.(unannotated := r.unannotated, warnings := r.warnings)
  {
    if methodName in e.unannotated then e
    else e.(unannotated := e.unannotated + {methodName}, warnings := e.warnings + [methodName])
  }

  /** What happens after `proceed` returned normally: flush-after wins over mark-dirty. */
  function AfterProceed(e: Env, p: Policy): (r: Res)
    ensures r.env.stack == e.stack
    ensures p.flushAfter && r.outcome.Ok? ==> !IsDirty(r.env)
    ensures !p.flushAfter && p.markDirty ==> r == Res(e.(dirtyCount := e.dirtyCount + 1), Ok)
    ensures !p.flushAfter && !p.markDirty ==> r == Res(e, Ok)
  {
    if p.flushAfter then FlushSession(e, false)
    else if p.markDirty then Res(IncrementDirtyCount(e), Ok)
    else Res(e, Ok)
  }

  /** The `finally` block: pop the frame; an empty stack throws, replacing any pending exception. */
  function PopAfter(r: Res): (popped: Res)
    ensures |r.env.stack| > 0 ==> popped.outcome == r.outcome && popped.env.stack + [r.env.stack[|r.env.stack| - 1]] == r.env.stack
    ensures |r.env.stack| > 0 ==> popped.env == r.env.(stack := popped.env.stack)
    ensures |r.env.stack| == 0 ==> popped == Res(r.env, Thrown(EmptyStackError))
  {
    if |r.env.stack| == 0 then Res(r.env, Thrown(EmptyStackError))
    else Res(r.env.(stack := r.env.stack[..|r.env.stack| - 1]), r.outcome)
  }

  /** The environment in which the wrapped code of a call starts: flush-before done, frame pushed. */
  function Entered(e: Env, methodName: string, annotation: Option<Policy>): (r: Res)
    ensures r.outcome.Ok? ==> r.env.stack == e.stack + [Frame(methodName, annotation.Some?)]
    ensures r.outcome.Thrown? ==> r.outcome == Thrown(HibernateError) && r.env.stack == e.stack
    ensures annotation.None? ==> methodName in r.env.unannotated
  {
    var e1 := if annotation.None? then NoteUnannotated(e, methodName) else e;
    var before := if EffectivePolicy(annotation).flushBefore then FlushSession(e1, false) else Res(e1, Ok);
    if before.outcome.Thrown? then before
    else Res(PushMethod(before.env, methodName, annotation.Some?), Ok)
  }

  /**
   * `invoke` for a method whose wrapped code runs `body` and then throws iff `fails`.
   * The frame stack is left as it was found, whether the call returns or throws and
   * however deeply the wrapped code nests other calls, and the pop never meets an
   * empty stack.
   */
  function Invoke(e: Env, methodName: string, annotation: Option<Policy>, body: seq<Step>, fails: bool): (r: Res)
    ensures r.env.stack == e.stack
    ensures r.outcome != Thrown(EmptyStackError)
    decreases body, 1
  {
    var entered := Entered(e, methodName, annotation);
    if entered.outcome.Thrown? then entered
    else
      var ran := RunSteps(entered.env, body);
      var proceeded := if ran.outcome.Ok? && fails then Res(ran.env, Thrown(ProceedError)) else ran;
      var after := if proceeded.outcome.Ok? then AfterProceed(proceeded.env, EffectivePolicy(annotation)) else proceeded;
      PopAfter(after)
  }

  /** A read path: a new query (mode AUTO) is resolved and, unless that threw, issued on the session. */
  function IssueQuery(e: Env): (r: Res)
    ensures r.env.stack == e.stack
    ensures !StackAnnotated(e.stack) ==> r == Res(e.(queries := e.queries + [Auto]), Ok)
    ensures StackAnnotated(e.stack) && r.outcome.Ok? ==> r.env.queries == e.queries + [Manual] && !IsDirty(r.env)
    ensures r.outcome.Thrown? ==> r == Res(e, Thrown(HibernateError))
  {
    var q := SetQueryFlushMode(e, Auto);
    if q.outcome.Ok? then Res(q.env.(queries := q.env.queries + [q.mode]), Ok)
    else Res(q.env, q.outcome)
  }

  /** One step of wrapped code; it leaves the frame stack as it found it. */
  function RunStep(e: Env, step: Step): (r: Res)
    ensures r.env.stack == e.stack
    ensures r.outcome != Thrown(EmptyStackError)
    decreases step
  {
    match step
    case Call(name, annotation, body, fails) => Invoke(e, name, annotation, body, fails)
    case Query => IssueQuery(e)
    case Flush(force) => FlushSession(e, force)
    case Catch(body) => Res(RunSteps(e, body).env, Ok)
  }

  /** Steps of wrapped code in order, up to the first exception; the frame stack is left as it was found. */
  function RunSteps(e: Env, steps: seq<Step>): (r: Res)
    ensures r.env.stack == e.stack
    ensures r.outcome != Thrown(EmptyStackError)
    decreases steps, 0
  {
    if |steps| == 0 then Res(e, Ok)
    else
      var first := RunStep(e, steps[0]);
      if first.outcome.Thrown? then first else RunSteps(first.env, steps[1..])
  }
}
