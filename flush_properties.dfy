/**
 * Properties of the flush coordinator, stated and proved on the value-level
 * specification in `FlushSpec`. The methods of `DirtySession.Interceptor` are
 * proved equal to the corresponding functions there through
 * `Interceptor.Snapshot`, so each property holds of the interceptor's objects as
 * well; `Interceptor.AddUnannotated` and the methods of `FlushData` and
 * `Session` state their effect on the fields directly.
 */
module FlushProperties {
  import opened FlushSpec

  // ---------------------------------------------------------------------------
  // What a call does to the dirty count

  /**
   * The effect of `invoke` once the wrapped code has run in `ran`: on a normal
   * return, flush-after (which wins over mark-dirty) flushes iff dirty and leaves the
   * count at 0, mark-dirty adds exactly one, and otherwise nothing changes; when the
   * wrapped code throws, the count and the flushes are left as the wrapped code left
   * them and the exception propagates.
   */
  lemma InvokeAfterProceed(e: Env, methodName: string, annotation: Option<Policy>, body: seq<Step>, fails: bool)
    requires Entered(e, methodName, annotation).outcome.Ok?
    ensures
      var ran := RunSteps(Entered(e, methodName, annotation).env, body);
      var p := EffectivePolicy(annotation);
      var r := Invoke(e, methodName, annotation, body, fails);
      if ran.outcome.Thrown? || fails then
        r.env.dirtyCount == ran.env.dirtyCount && r.env.flushes == ran.env.flushes &&
        r.outcome == (if ran.outcome.Thrown? then ran.outcome else Thrown(ProceedError))
      else if p.flushAfter then
        if ran.env.dirtyCount > 0 && ran.env.storeFails then
          r.env.dirtyCount == ran.env.dirtyCount && r.env.flushes == ran.env.flushes && r.outcome == Thrown(HibernateError)
        else
          r.env.dirtyCount == 0 && r.outcome == Ok &&
          r.env.flushes == ran.env.flushes + (if ran.env.dirtyCount > 0 then 1 else 0)
      else if p.markDirty then
        r.env.dirtyCount == ran.env.dirtyCount + 1 && r.env.flushes == ran.env.flushes && r.outcome == Ok
      else
        r.env.dirtyCount == ran.env.dirtyCount && r.env.flushes == ran.env.flushes && r.outcome == Ok
  {
  }

  /** A call annotated flush-after that returns normally leaves the session clean, whatever mark-dirty says. */
  lemma FlushAfterWins(e: Env, methodName: string, p: Policy, body: seq<Step>)
    requires p.flushAfter
    requires Invoke(e, methodName, Some(p), body, false).outcome.Ok?
    ensures !IsDirty(Invoke(e, methodName, Some(p), body, false).env)
  {
  }

  /** Flush-before flushes only a dirty session, and runs before the frame is pushed. */
  lemma FlushBeforeOnlyWhenDirty(e: Env, methodName: string, p: Policy)
    requires p.flushBefore
    ensures var entered := Entered(e, methodName, Some(p));
            !IsDirty(e) ==> entered == Res(PushMethod(e, methodName, true), Ok)
    ensures var entered := Entered(e, methodName, Some(p));
            IsDirty(e) && !e.storeFails ==>
              entered == Res(PushMethod(e.(dirtyCount := 0, flushes := e.flushes + 1), methodName, true), Ok)
    ensures var entered := Entered(e, methodName, Some(p));
            IsDirty(e) && e.storeFails ==> entered == Res(e, Thrown(HibernateError))
  {
  }

  /** The write method of the scenarios: annotated mark-dirty only. */
  const MarkDirtyOnly := Policy(false, false, true)

  /** A sequence of calls of write methods, each of which returns normally without nested work. */
  function Writes(names: seq<string>): (steps: seq<Step>)
    ensures |steps| == |names|
    ensures forall i :: 0 <= i < |names| ==> steps[i] == Call(names[i], Some(MarkDirtyOnly), [], false)
  {
    if |names| == 0 then [] else [Call(names[0], Some(MarkDirtyOnly), [], false)] + Writes(names[1..])
  }

  /** N mark-dirty calls with no flush in between raise the count by exactly N and change nothing else. */
  lemma {:induction false} WritesCount(e: Env, names: seq<string>)
    ensures RunSteps(e, Writes(names)) == Res(e.(dirtyCount := e.dirtyCount + |names|), Ok)
    decreases names
  {
    if |names| > 0 {
      var steps := Writes(names);
      assert steps[0] == Call(names[0], Some(MarkDirtyOnly), [], false);
      assert steps[1..] == Writes(names[1..]);
      var e1 := e.(dirtyCount := e.dirtyCount + 1);
      assert RunStep(e, steps[0]) == Res(e1, Ok);
      WritesCount(e1, names[1..]);
    }
  }

  // ---------------------------------------------------------------------------
  // The query flush-mode resolver and manual flushes

  /**
   * On a stack with an unannotated frame the resolver changes nothing; on a fully
   * annotated stack it flushes exactly when dirty, resets the count and sets MANUAL.
   */
  lemma QueryResolverEffect(e: Env, mode: FlushMode)
    ensures !StackAnnotated(e.stack) ==> SetQueryFlushMode(e, mode) == QueryRes(e, Ok, mode)
    ensures StackAnnotated(e.stack) && IsDirty(e) && !e.storeFails ==>
              SetQueryFlushMode(e, mode) == QueryRes(e.(dirtyCount := 0, flushes := e.flushes + 1), Ok, Manual)
    ensures StackAnnotated(e.stack) && !IsDirty(e) ==> SetQueryFlushMode(e, mode) == QueryRes(e, Ok, Manual)
    ensures StackAnnotated(e.stack) && IsDirty(e) && e.storeFails ==>
              SetQueryFlushMode(e, mode) == QueryRes(e, Thrown(HibernateError), mode)
  {
  }

  /**
   * A forced flush always flushes, an unforced one only when dirty; once it returns
   * normally the session is clean, and a failed flush leaves the count as it was.
   */
  lemma FlushSessionEffect(e: Env, force: bool)
    ensures var r := FlushSession(e, force);
            r.outcome.Ok? ==> !IsDirty(r.env) && r.env == e.(dirtyCount := 0, flushes := r.env.flushes)
    ensures var r := FlushSession(e, force);
            r.env.flushes == e.flushes + (if (force || IsDirty(e)) && !e.storeFails then 1 else 0)
    ensures var r := FlushSession(e, force);
            r.outcome.Thrown? <==> (force || IsDirty(e)) && e.storeFails
    ensures var r := FlushSession(e, force);
            r.outcome.Thrown? ==> r == Res(e, Thrown(HibernateError))
  {
  }

  /** Queries whose modes were appended to `before` to give `after` all kept the store's AUTO mode. */
  ghost predicate OnlyAutoAdded(before: seq<FlushMode>, after: seq<FlushMode>)
  {
    before <= after && forall i :: |before| <= i < |after| ==> after[i] == Auto
  }

  lemma OnlyAutoAddedTransitive(a: seq<FlushMode>, b: seq<FlushMode>, c: seq<FlushMode>)
    requires OnlyAutoAdded(a, b) && OnlyAutoAdded(b, c)
    ensures OnlyAutoAdded(a, c)
  {
  }

  lemma StackAnnotatedPrefix(s: seq<Frame>, f: Frame)
    requires StackAnnotated(s + [f])
    ensures StackAnnotated(s) && f.isAnnotated
  {
    assert forall i :: 0 <= i < |s| ==> (s + [f])[i] == s[i];
    assert (s + [f])[|s|] == f;
  }

  /**
   * Under a frame that is not annotated, every query issued, however deeply nested,
   * keeps the store's AUTO mode: the resolver never flushes or silences a query there.
   */
  lemma {:induction false} InvokeUnderUnannotated(e: Env, methodName: string, annotation: Option<Policy>, body: seq<Step>, fails: bool)
    requires !StackAnnotated(e.stack) || annotation.None?
    ensures OnlyAutoAdded(e.queries, Invoke(e, methodName, annotation, body, fails).env.queries)
    decreases body, 1
  {
    var entered := Entered(e, methodName, annotation);
    if entered.outcome.Ok? {
      assert entered.env.stack == e.stack + [Frame(methodName, annotation.Some?)];
      if StackAnnotated(entered.env.stack) {
        StackAnnotatedPrefix(e.stack, Frame(methodName, annotation.Some?));
      }
      RunStepsUnderUnannotated(entered.env, body);
    }
  }

  lemma {:induction false} RunStepUnderUnannotated(e: Env, step: Step)
    requires !StackAnnotated(e.stack)
    ensures OnlyAutoAdded(e.queries, RunStep(e, step).env.queries)
    decreases step
  {
    match step
    case Call(name, annotation, body, fails) => InvokeUnderUnannotated(e, name, annotation, body, fails);
    case Query =>
    case Flush(_) =>
    case Catch(body) => RunStepsUnderUnannotated(e, body);
  }

  lemma {:induction false} RunStepsUnderUnannotated(e: Env, steps: seq<Step>)
    requires !StackAnnotated(e.stack)
    ensures OnlyAutoAdded(e.queries, RunSteps(e, steps).env.queries)
    decreases steps, 0
  {
    if |steps| > 0 {
      RunStepUnderUnannotated(e, steps[0]);
      var first := RunStep(e, steps[0]);
      if first.outcome.Ok? {
        RunStepsUnderUnannotated(first.env, steps[1..]);
        OnlyAutoAddedTransitive(e.queries, first.env.queries, RunSteps(first.env, steps[1..]).env.queries);
      }
    }
  }

  // ---------------------------------------------------------------------------
  // Warn once per unannotated method name

  /** Each name in the set was warned about exactly once, and nothing else was warned about. */
  ghost predicate WarnedOnce(e: Env)
  {
    (forall i, j :: 0 <= i < j < |e.warnings| ==> e.warnings[i] != e.warnings[j]) &&
    (forall n :: n in e.unannotated <==> n in e.warnings)
  }

  /** The unannotated set only grows, the warning log only gets longer, and warn-once is kept. */
  ghost predicate WarnEvolves(e: Env, e': Env)
  {
    e.unannotated <= e'.unannotated && e.warnings <= e'.warnings && (WarnedOnce(e) ==> WarnedOnce(e'))
  }

  lemma WarnEvolvesTransitive(a: Env, b: Env, c: Env)
    requires WarnEvolves(a, b) && WarnEvolves(b, c)
    ensures WarnEvolves(a, c)
  {
  }

  lemma NoteUnannotatedWarnsOnce(e: Env, methodName: string)
    ensures WarnEvolves(e, NoteUnannotated(e, methodName))
    ensures methodName in NoteUnannotated(e, methodName).unannotated
  {
    var e' := NoteUnannotated(e, methodName);
    if methodName !in e.unannotated && WarnedOnce(e) {
      var w := e'.warnings;
      assert w == e.warnings + [methodName];
      forall i, j | 0 <= i < j < |w| ensures w[i] != w[j] {
        if j == |e.warnings| {
          assert w[i] == e.warnings[i];
          assert e.warnings[i] in e.warnings;
        }
      }
      forall n ensures n in e'.unannotated <==> n in w {
        assert n in w <==> n in e.warnings || n == methodName;
      }
    }
  }

  lemma {:induction false} InvokeWarnsOnce(e: Env, methodName: string, annotation: Option<Policy>, body: seq<Step>, fails: bool)
    ensures WarnEvolves(e, Invoke(e, methodName, annotation, body, fails).env)
    decreases body, 1
  {
    NoteUnannotatedWarnsOnce(e, methodName);
    var e1 := if annotation.None? then NoteUnannotated(e, methodName) else e;
    var entered := Entered(e, methodName, annotation);
    assert WarnEvolves(e1, entered.env);
    if entered.outcome.Ok? {
      RunStepsWarnOnce(entered.env, body);
      var ran := RunSteps(entered.env, body);
      WarnEvolvesTransitive(e, entered.env, ran.env);
      var r := Invoke(e, methodName, annotation, body, fails);
      assert r.env.unannotated == ran.env.unannotated && r.env.warnings == ran.env.warnings;
    }
  }

  lemma {:induction false} RunStepWarnsOnce(e: Env, step: Step)
    ensures WarnEvolves(e, RunStep(e, step).env)
    decreases step
  {
    match step
    case Call(name, annotation, body, fails) => InvokeWarnsOnce(e, name, annotation, body, fails);
    case Query =>
    case Flush(_) =>
    case Catch(body) => RunStepsWarnOnce(e, body);
  }

  lemma {:induction false} RunStepsWarnOnce(e: Env, steps: seq<Step>)
    ensures WarnEvolves(e, RunSteps(e, steps).env)
    decreases steps, 0
  {
    if |steps| > 0 {
      RunStepWarnsOnce(e, steps[0]);
      var first := RunStep(e, steps[0]);
      if first.outcome.Ok? {
        RunStepsWarnOnce(first.env, steps[1..]);
        WarnEvolvesTransitive(e, first.env, RunSteps(first.env, steps[1..]).env);
      }
    }
  }

  /** A name already in the set is never warned about again, however many calls follow. */
  lemma NoSecondWarning(e: Env, steps: seq<Step>, methodName: string)
    requires WarnedOnce(e) && methodName in e.unannotated
    ensures var w := RunSteps(e, steps).env.warnings;
            forall i :: |e.warnings| <= i < |w| ==> w[i] != methodName
  {
    RunStepsWarnOnce(e, steps);
    var w := RunSteps(e, steps).env.warnings;
    assert methodName in e.warnings;
    var k :| 0 <= k < |e.warnings| && e.warnings[k] == methodName;
    assert w[k] == methodName;
  }

  // ---------------------------------------------------------------------------
  // Scenarios

  /** A new unit of work on a fresh process: nothing dirty, no frames, no warnings, healthy store. */
  const Start := Env(0, [], 0, false, {}, [], [])

  /** Three calls of an annotated mark-dirty "write": the count is 3 and the stack is empty. */
  lemma ThreeWrites()
    ensures RunSteps(Start, Writes(["write", "write", "write"])) == Res(Start.(dirtyCount := 3), Ok)
  {
    WritesCount(Start, ["write", "write", "write"]);
  }

  /** A write followed by a read: the read flushes once, resets the count, and its query is MANUAL. */
  lemma WriteThenQuery()
    ensures RunSteps(Start, [Call("write", Some(MarkDirtyOnly), [], false), Query]) ==
            Res(Start.(flushes := 1, queries := [Manual]), Ok)
  {
    var steps := [Call("write", Some(MarkDirtyOnly), [], false), Query];
    var e1 := Start.(dirtyCount := 1);
    assert RunStep(Start, steps[0]) == Res(e1, Ok);
    assert StackAnnotated(e1.stack);
    assert RunStep(e1, steps[1]) == Res(Start.(flushes := 1, queries := [Manual]), Ok);
    assert steps[1..][0] == steps[1] && steps[1..][1..] == [];
    assert RunSteps(e1, steps[1..]) == RunSteps(Start.(flushes := 1, queries := [Manual]), []);
  }

  /** An unannotated method not seen before, called twice without nested work, is warned about once. */
  lemma UnannotatedTwiceWarnedOnce(e: Env, methodName: string)
    requires methodName !in e.unannotated
    ensures var r := RunSteps(e, [Call(methodName, None, [], false), Call(methodName, None, [], false)]);
            r.env.warnings == e.warnings + [methodName] && r.env.unannotated == e.unannotated + {methodName}
  {
    var call := Call(methodName, None, [], false);
    var steps := [call, call];
    var e1 := NoteUnannotated(e, methodName);
    assert e1.warnings == e.warnings + [methodName] && methodName in e1.unannotated;
    assert Entered(e, methodName, None) == Res(PushMethod(e1, methodName, false), Ok);
    assert RunStep(e, call) == Res(e1, Ok);
    assert NoteUnannotated(e1, methodName) == e1;
    assert Entered(e1, methodName, None) == Res(PushMethod(e1, methodName, false), Ok);
    assert RunStep(e1, call) == Res(e1, Ok);
    assert steps[1..] == [call] && [call][1..] == [];
    assert RunSteps(e1, steps[1..]) == Res(e1, Ok);
  }

  /** An unannotated "legacyOp" called twice is warned about once. */
  lemma LegacyOpWarnedOnce()
    ensures RunSteps(Start, [Call("legacyOp", None, [], false), Call("legacyOp", None, [], false)]).env.warnings == ["legacyOp"]
  {
    UnannotatedTwiceWarnedOnce(Start, "legacyOp");
    assert Start.warnings + ["legacyOp"] == ["legacyOp"];
  }

  /** An inner call that throws inside a `Catch` still leaves the outer call's stack balanced and the outer call returns. */
  lemma InnerFailureCaught(e: Env)
    requires e.stack == []
    ensures var r := RunSteps(e, [Call("outer", Some(MarkDirtyOnly), [Catch([Call("inner", Some(MarkDirtyOnly), [], true)])], false)]);
            r.outcome == Ok && r.env.stack == [] && r.env.dirtyCount == e.dirtyCount + 1
  {
    var inner := Call("inner", Some(MarkDirtyOnly), [], true);
    var outer := Call("outer", Some(MarkDirtyOnly), [Catch([inner])], false);
    var pushed := PushMethod(e, "outer", true);
    var innerRun := RunStep(pushed, inner);
    assert innerRun.env == pushed.(stack := pushed.stack);
    assert RunSteps(pushed, [inner]) == innerRun;
    assert RunStep(pushed, Catch([inner])) == Res(pushed, Ok);
    assert [Catch([inner])][1..] == [];
    assert RunSteps(pushed, [Catch([inner])]) == Res(pushed, Ok);
    assert RunStep(e, outer) == Res(e.(dirtyCount := e.dirtyCount + 1), Ok);
  }
}
