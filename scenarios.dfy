/**
 * The scenarios of the flush coordinator, proved on the objects of `DirtySession`:
 * a new transaction, a healthy session and an interceptor with no warnings yet.
 */
module Scenarios {
  import opened FlushSpec
  import opened DirtySession
  import FlushProperties

  /** Three calls of an annotated mark-dirty "write": the dirty count is 3 and no frame is left. */
  method ThreeWrites() returns (dirtyCount: nat, depth: nat)
    ensures dirtyCount == 3 && depth == 0
  {
    var txn := new Transaction();
    var session := new Session(false);
    var interceptor := new Interceptor();
    ghost var start := interceptor.Snapshot(txn, session);
    assert start == FlushProperties.Start;
    var write := Some(FlushProperties.MarkDirtyOnly);
    var _ := interceptor.Invoke(txn, session, "write", write, [], false);
    var _ := interceptor.Invoke(txn, session, "write", write, [], false);
    var _ := interceptor.Invoke(txn, session, "write", write, [], false);
    dirtyCount, depth := txn.flushData.dirtyCount, |txn.flushData.methodStack|;
  }

  /** A write followed by a read: the read flushes once, resets the count and its query is MANUAL. */
  method WriteThenQuery() returns (flushes: nat, dirtyCount: nat, mode: FlushMode)
    ensures flushes == 1 && dirtyCount == 0 && mode == Manual
  {
    var txn := new Transaction();
    var session := new Session(false);
    var interceptor := new Interceptor();
    ghost var e0 := interceptor.Snapshot(txn, session);
    assert e0 == FlushProperties.Start;
    ghost var e1 := e0.(dirtyCount := 1);
    assert Invoke(e0, "write", Some(FlushProperties.MarkDirtyOnly), [], false) == Res(e1, Ok);
    var _ := interceptor.Invoke(txn, session, "write", Some(FlushProperties.MarkDirtyOnly), [], false);
    assert interceptor.Snapshot(txn, session) == e1;
    assert StackAnnotated(e1.stack);
    var query := new Query();
    var _ := interceptor.SetQueryFlushMode(txn, session, query);
    flushes, dirtyCount, mode := session.flushCount, txn.flushData.dirtyCount, query.flushMode;
  }

  /** An unannotated "legacyOp" called twice: one warning, and the name is in the set. */
  method LegacyOpTwice() returns (warnings: seq<string>, names: set<string>)
    ensures warnings == ["legacyOp"] && names == {"legacyOp"}
  {
    var txn := new Transaction();
    var session := new Session(false);
    var interceptor := new Interceptor();
    var name := "legacyOp";
    ghost var e0 := interceptor.Snapshot(txn, session);
    ghost var e1 := NoteUnannotated(e0, name);
    assert e1.warnings == [name] && e1.unannotated == {name};
    assert Entered(e0, name, None) == Res(PushMethod(e1, name, false), Ok);
    var _ := interceptor.Invoke(txn, session, name, None, [], false);
    assert interceptor.Snapshot(txn, session) == e1;
    assert NoteUnannotated(e1, name) == e1;
    assert Entered(e1, name, None) == Res(PushMethod(e1, name, false), Ok);
    var _ := interceptor.Invoke(txn, session, name, None, [], false);
    assert interceptor.Snapshot(txn, session) == e1;
    warnings, names := interceptor.warnings, interceptor.unannotatedMethodNames;
  }

  /** A call whose wrapped code throws: the exception propagates, the frame is popped, the count is unchanged. */
  method FailingWrite() returns (o: Outcome, dirtyCount: nat, depth: nat)
    ensures o == Thrown(ProceedError) && dirtyCount == 0 && depth == 0
  {
    var txn := new Transaction();
    var session := new Session(false);
    var interceptor := new Interceptor();
    o := interceptor.Invoke(txn, session, "write", Some(FlushProperties.MarkDirtyOnly), [], true);
    dirtyCount, depth := txn.flushData.dirtyCount, |txn.flushData.methodStack|;
  }
}
