/**
 * The interceptor's objects and their in-place updates: the transaction-local
 * flush data, the store session and query it talks to, the transaction that
 * binds the flush data, and the interceptor that owns the process-wide set of
 * unannotated method names. The methods of `Interceptor` are proved equal to
 * the matching functions of `FlushSpec` through `Interceptor.Snapshot`; the
 * methods of `FlushData` and `Session`, `GetFlushData` and
 * `Interceptor.AddUnannotated` state their effect on the fields directly.
 */
module DirtySession {
  import opened FlushSpec

  /** Per-transaction flush state: a dirty counter and a stack of (method name, is annotated) frames. */
  class FlushData {
    var dirtyCount: nat
    var methodStack: seq<Frame>

    constructor ()
      ensures dirtyCount == 0 && methodStack == []
    {
      dirtyCount := 0;
      methodStack := [];
    }

    method IncrementDirtyCount()
      modifies this
      ensures dirtyCount == old(dirtyCount) + 1
      ensures methodStack == old(methodStack)
    {
      dirtyCount := dirtyCount + 1;
    }

    method IsDirty() returns (dirty: bool)
      ensures dirty <==> dirtyCount > 0
    {
      dirty := dirtyCount > 0;
    }

    method ResetDirtyCount()
      modifies this
      ensures dirtyCount == 0
      ensures methodStack == old(methodStack)
    {
      dirtyCount := 0;
    }

    method PushMethod(methodName: string, isAnnotated: bool)
      modifies this
      ensures methodStack == old(methodStack) + [Frame(methodName, isAnnotated)]
      ensures dirtyCount == old(dirtyCount)
    {
      methodStack := methodStack + [Frame(methodName, isAnnotated)];
    }

    /** Removes and returns the most recently pushed frame; an empty stack throws. */
    method PopMethod() returns (r: Result<Frame>)
      modifies this
      ensures old(methodStack) == [] ==> r == Failure(EmptyStackError) && methodStack == []
      ensures old(methodStack) != [] ==> r.Success? && old(methodStack) == methodStack + [r.value]
      ensures dirtyCount == old(dirtyCount)
    {
      if |methodStack| == 0 {
        r := Failure(EmptyStackError);
      } else {
        r := Success(methodStack[|methodStack| - 1]);
        methodStack := methodStack[..|methodStack| - 1];
      }
    }

    /** The most recently pushed frame, left in place; an empty stack throws. */
    method CurrentMethod() returns (r: Result<Frame>)
      ensures methodStack == [] ==> r == Failure(EmptyStackError)
      ensures methodStack != [] ==> r.Success? && r.value == methodStack[|methodStack| - 1]
    {
      if |methodStack| == 0 {
        r := Failure(EmptyStackError);
      } else {
        r := Success(methodStack[|methodStack| - 1]);
      }
    }

    /** True iff every frame on the stack is annotated; scans the stack and stops at the first unannotated frame. */
    method IsStackAnnotated() returns (annotated: bool)
      ensures annotated == StackAnnotated(methodStack)
    {
      var i := 0;
      while i < |methodStack|
        invariant 0 <= i <= |methodStack|
        invariant forall j :: 0 <= j < i ==> methodStack[j].isAnnotated
      {
        if !methodStack[i].isAnnotated {
          return false;
        }
        i := i + 1;
      }
      return true;
    }
  }

  /** The store session, reduced to its flushes and the flush modes of the queries issued on it. */
  class Session {
    var flushCount: nat
    const flushFails: bool
    var issued: seq<FlushMode>

    constructor (flushFails: bool)
      ensures this.flushFails == flushFails && flushCount == 0 && issued == []
    {
      this.flushFails := flushFails;
      flushCount := 0;
      issued := [];
    }

    method Flush() returns (o: Outcome)
      modifies this
      ensures o == if flushFails then Thrown(HibernateError) else Ok
      ensures flushCount == if flushFails then old(flushCount) else old(flushCount) + 1
      ensures issued == old(issued)
    {
      if flushFails {
        o := Thrown(HibernateError);
      } else {
        flushCount := flushCount + 1;
        o := Ok;
      }
    }

    method Execute(query: Query)
      modifies this
      ensures issued == old(issued) + [query.flushMode]
      ensures flushCount == old(flushCount)
    {
      issued := issued + [query.flushMode];
    }
  }

  /** A store query; a new one has the store's default AUTO mode. */
  class Query {
    var flushMode: FlushMode

    constructor ()
      ensures flushMode == Auto
    {
      flushMode := Auto;
    }
  }

  /** A unit of work; `flushData` is the transaction-local resource holding its flush data, if bound yet. */
  class Transaction {
    var flushData: FlushData?

    constructor ()
      ensures flushData == null
    {
      flushData := null;
    }
  }

  /** The transaction's flush data is bound, and it is the one bound before if there was one. */
  twostate predicate KeepsBinding(txn: Transaction)
    reads txn
  {
    txn.flushData != null &&
    (old(txn.flushData) != null ==> txn.flushData == old(txn.flushData)) &&
    (old(txn.flushData) == null ==> fresh(txn.flushData))
  }

  /** Returns the transaction's flush data, creating and binding an empty one on first use. */
  method GetFlushData(txn: Transaction) returns (flushData: FlushData)
    modifies txn
    ensures txn.flushData == flushData && KeepsBinding(txn)
    ensures old(txn.flushData) == null ==> flushData.dirtyCount == 0 && flushData.methodStack == []
  {
    if txn.flushData == null {
      flushData := new FlushData();
      txn.flushData := flushData;
    } else {
      flushData := txn.flushData;
    }
  }

  /**
   * The interceptor. Its fields are the process-wide set of method names found
   * without an annotation and the log of warnings emitted for them.
   */
  class Interceptor {
    var unannotatedMethodNames: set<string>
    var warnings: seq<string>

    constructor ()
      ensures unannotatedMethodNames == {} && warnings == []
    {
      unannotatedMethodNames := {};
      warnings := [];
    }

    /** Everything the model observes, as a value; an unbound transaction has empty flush data. */
    ghost function Snapshot(txn: Transaction, session: Session): Env
      reads this, txn, txn.flushData, session
    {
      var data := txn.flushData;
      Env(
        if data == null then 0 else data.dirtyCount,
        if data == null then [] else data.methodStack,
        session.flushCount,
        session.flushFails,
        unannotatedMethodNames,
        warnings,
        session.issued)
    }

    /** Set insertion that reports whether the name was new, and warns exactly then. */
    method AddUnannotated(methodName: string) returns (added: bool)
      modifies this
      ensures added == (methodName !in old(unannotatedMethodNames))
      ensures unannotatedMethodNames == old(unannotatedMethodNames) + {methodName}
      ensures warnings == if added then old(warnings) + [methodName] else old(warnings)
    {
      added := methodName !in unannotatedMethodNames;
      unannotatedMethodNames := unannotatedMethodNames + {methodName};
      if added {
        warnings := warnings + [methodName];
      }
    }

    /** Flush and reset the dirty count: forced always, otherwise only when dirty. */
    method FlushSessionWith(txn: Transaction, session: Session, force: bool) returns (o: Outcome)
      modifies txn, txn.flushData, session
      ensures KeepsBinding(txn)
      ensures Snapshot(txn, session) == FlushSpec.FlushSession(old(Snapshot(txn, session)), force).env
      ensures o == FlushSpec.FlushSession(old(Snapshot(txn, session)), force).outcome
    {
      var flushData := GetFlushData(txn);
      var dirty := flushData.IsDirty();
      if force || dirty {
        o := session.Flush();
        if o.Ok? {
          flushData.ResetDirtyCount();
        }
      } else {
        o := Ok;
      }
    }

    /** The one-argument overload: flush only when dirty. */
    method FlushSession(txn: Transaction, session: Session) returns (o: Outcome)
      modifies txn, txn.flushData, session
      ensures KeepsBinding(txn)
      ensures Snapshot(txn, session) == FlushSpec.FlushSession(old(Snapshot(txn, session)), false).env
      ensures o == FlushSpec.FlushSession(old(Snapshot(txn, session)), false).outcome
    {
      o := FlushSessionWith(txn, session, false);
    }

    /** The query flush-mode resolver. */
    method SetQueryFlushMode(txn: Transaction, session: Session, query: Query) returns (o: Outcome)
      modifies txn, txn.flushData, session, query
      ensures KeepsBinding(txn)
      ensures Snapshot(txn, session) == FlushSpec.SetQueryFlushMode(old(Snapshot(txn, session)), old(query.flushMode)).env
      ensures o == FlushSpec.SetQueryFlushMode(old(Snapshot(txn, session)), old(query.flushMode)).outcome
      ensures query.flushMode == FlushSpec.SetQueryFlushMode(old(Snapshot(txn, session)), old(query.flushMode)).mode
    {
      var flushData := GetFlushData(txn);
      var annotated := flushData.IsStackAnnotated();
      if !annotated {
        return Ok;
      }
      var dirty := flushData.IsDirty();
      if dirty {
        o := session.Flush();
        if o.Thrown? {
          return;
        }
        flushData.ResetDirtyCount();
      }
      query.flushMode := Manual;
      o := Ok;
    }

    /**
     * Intercept a call of `methodName` whose annotation is `annotation` and whose
     * wrapped code runs `body`, then throws iff `fails`.
     */
    method Invoke(txn: Transaction, session: Session, methodName: string, annotation: Option<Policy>,
                  body: seq<Step>, fails: bool) returns (o: Outcome)
      modifies this, txn, txn.flushData, session
      ensures KeepsBinding(txn)
      ensures Snapshot(txn, session) == FlushSpec.Invoke(old(Snapshot(txn, session)), methodName, annotation, body, fails).env
      ensures o == FlushSpec.Invoke(old(Snapshot(txn, session)), methodName, annotation, body, fails).outcome
      decreases body, 1
    {
      var flushData;
      o, flushData := Enter(txn, session, methodName, annotation);
      if o.Thrown? {
        return;
      }
      o := Proceed(txn, session, body);
      if o.Ok? && fails {
        o := Thrown(ProceedError);
      }
      o := Leave(txn, session, flushData, EffectivePolicy(annotation), o);
    }

    /** The part of `invoke` before the wrapped call: warn once, flush before if dirty, push the frame. */
    method Enter(txn: Transaction, session: Session, methodName: string, annotation: Option<Policy>)
      returns (o: Outcome, flushData: FlushData)
      modifies this, txn, txn.flushData, session
      ensures KeepsBinding(txn) && txn.flushData == flushData
      ensures Res(Snapshot(txn, session), o) == Entered(old(Snapshot(txn, session)), methodName, annotation)
    {
      ghost var e0 := Snapshot(txn, session);
      var policy := EffectivePolicy(annotation);
      if annotation.None? {
        var _ := AddUnannotated(methodName);
      }
      flushData := GetFlushData(txn);
      assert Snapshot(txn, session) == if annotation.None? then NoteUnannotated(e0, methodName) else e0;
      o := Ok;
      if policy.flushBefore {
        o := FlushSession(txn, session);
        if o.Thrown? {
          return;
        }
      }
      flushData.PushMethod(methodName, annotation.Some?);
    }

    /** The part of `invoke` after the wrapped call returned with `o`: flush after or mark dirty, then pop in `finally`. */
    method Leave(txn: Transaction, session: Session, flushData: FlushData, policy: Policy, o: Outcome)
      returns (o': Outcome)
      requires txn.flushData == flushData
      modifies txn, flushData, session
      ensures KeepsBinding(txn) && txn.flushData == flushData
      ensures Res(Snapshot(txn, session), o') ==
              PopAfter(if o.Ok? then AfterProceed(old(Snapshot(txn, session)), policy) else Res(old(Snapshot(txn, session)), o))
    {
      o' := o;
      if o.Ok? {
        if policy.flushAfter {
          o' := FlushSession(txn, session);
        } else if policy.markDirty {
          flushData.IncrementDirtyCount();
        }
      }
      var popped := flushData.PopMethod();
      if popped.Failure? {
        o' := Thrown(popped.error);
      }
    }

    /** The wrapped code of an intercepted method: the steps in order, stopping at the first exception. */
    method Proceed(txn: Transaction, session: Session, steps: seq<Step>) returns (o: Outcome)
      modifies this, txn, txn.flushData, session
      ensures KeepsBinding(txn)
      ensures Snapshot(txn, session) == RunSteps(old(Snapshot(txn, session)), steps).env
      ensures o == RunSteps(old(Snapshot(txn, session)), steps).outcome
      decreases steps, 0
    {
      o := Ok;
      var flushData := GetFlushData(txn);
      var i := 0;
      while i < |steps|
        invariant 0 <= i <= |steps|
        invariant txn.flushData == flushData
        invariant RunSteps(old(Snapshot(txn, session)), steps) ==
                  if o.Thrown? then Res(Snapshot(txn, session), o) else RunSteps(Snapshot(txn, session), steps[i..])
        invariant o.Thrown? ==> i == |steps|
        decreases |steps| - i
      {
        assert steps[i..][0] == steps[i] && steps[i..][1..] == steps[i + 1..];
        o := RunStep(txn, session, steps[i]);
        if o.Thrown? {
          i := |steps|;
        } else {
          i := i + 1;
        }
      }
    }

    method RunStep(txn: Transaction, session: Session, step: Step) returns (o: Outcome)
      modifies this, txn, txn.flushData, session
      ensures KeepsBinding(txn)
      ensures Snapshot(txn, session) == FlushSpec.RunStep(old(Snapshot(txn, session)), step).env
      ensures o == FlushSpec.RunStep(old(Snapshot(txn, session)), step).outcome
      decreases step
    {
      match step
      case Call(name, annotation, body, fails) =>
        o := Invoke(txn, session, name, annotation, body, fails);
      case Query =>
        var query := new Query();
        o := SetQueryFlushMode(txn, session, query);
        if o.Ok? {
          session.Execute(query);
        }
      case Flush(force) =>
        o := FlushSessionWith(txn, session, force);
      case Catch(body) =>
        var _ := Proceed(txn, session, body);
        o := Ok;
    }
  }
}
