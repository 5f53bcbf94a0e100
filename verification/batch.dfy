/** Batches of inventory operations (manager.go, ExecuteBatch and
    GetBatchStatus): the operations run one after another against the same
    state, a failure is recorded with its index and does not stop the batch
    or undo the operations before it. */
module Batch {
  import opened Wrappers
  import opened Types
  import opened Store
  import opened Ledger
  import opened LedgerProperties

  const KnownKinds: set<string> := {AddOp, RemoveOp, TransferOp, AdjustOp}

  /** One operation of a batch, dispatched on its kind. A transfer without a
      destination and an operation of unknown kind fail without touching
      the state; so does every failing operation except a transfer, whose
      compensation may already have written. */
  function Apply(db: Db, cfg: Config, env: Env, op: InventoryOperation): (r: Outcome)
    ensures op.kind == AddOp ==> r == Add(db, cfg, env, op.itemId, op.locationId, op.quantity, op.reference)
    ensures op.kind == RemoveOp ==> r == Remove(db, cfg, env, op.itemId, op.locationId, op.quantity, op.reference)
    ensures op.kind == TransferOp && op.toLocationId.None? ==> r == Outcome(db, Some(Formatted(NoToLocation)))
    ensures op.kind == TransferOp && op.toLocationId.Some? ==>
              r == Transfer(db, cfg, env, op.itemId, op.locationId, op.toLocationId.value, op.quantity, op.reference)
    ensures op.kind == AdjustOp ==> r == Adjust(db, cfg, env, op.itemId, op.locationId, op.quantity, op.reference)
    ensures op.kind !in KnownKinds ==> r == Outcome(db, Some(Formatted(UnknownOperation)))
    ensures r.err.Some? && op.kind != TransferOp ==> r.db == db
  {
    if op.kind == AddOp then Add(db, cfg, env, op.itemId, op.locationId, op.quantity, op.reference)
    else if op.kind == RemoveOp then Remove(db, cfg, env, op.itemId, op.locationId, op.quantity, op.reference)
    else if op.kind == TransferOp then
      match op.toLocationId
      case None => Outcome(db, Some(Formatted(NoToLocation)))
      case Some(to) => Transfer(db, cfg, env, op.itemId, op.locationId, to, op.quantity, op.reference)
    else if op.kind == AdjustOp then Adjust(db, cfg, env, op.itemId, op.locationId, op.quantity, op.reference)
    else Outcome(db, Some(Formatted(UnknownOperation)))
  }

  /** Threads a state through `ops` with `step`, collecting what each step
      reports. */
  function Thread<S, O, E>(step: (S, O) -> (S, E), s: S, ops: seq<O>): (r: (S, seq<E>))
    ensures |r.1| == |ops|
    decreases |ops|
  {
    if ops == [] then (s, [])
    else
      var p := Thread(step, s, ops[..|ops| - 1]);
      var o := step(p.0, ops[|ops| - 1]);
      (o.0, p.1 + [o.1])
  }

  /** Threading through two sequences one after the other is threading
      through their concatenation. */
  lemma {:induction false} ThreadConcat<S, O, E>(step: (S, O) -> (S, E), s: S, a: seq<O>, b: seq<O>)
    ensures Thread(step, s, a + b).0 == Thread(step, Thread(step, s, a).0, b).0
    ensures Thread(step, s, a + b).1 == Thread(step, s, a).1 + Thread(step, Thread(step, s, a).0, b).1
    decreases |b|
  {
    if b == [] {
      assert a + b == a;
    } else {
      var b' := b[..|b| - 1];
      ThreadConcat(step, s, a, b');
      assert (a + b)[..|a + b| - 1] == a + b';
      assert (a + b)[|a + b| - 1] == b[|b| - 1];
    }
  }

  /** One operation of a batch as a step: the state after it and its error. */
  function StepOf(cfg: Config, env: Env): (Db, InventoryOperation) -> (Db, Option<Error>) {
    (d: Db, op: InventoryOperation) => var o := Apply(d, cfg, env, op); (o.db, o.err)
  }

  /** The reference semantics of a batch: the state after running `ops` in
      order, and the error of each operation. */
  function Run(db: Db, cfg: Config, env: Env, ops: seq<InventoryOperation>): (r: (Db, seq<Option<Error>>))
    ensures |r.1| == |ops|
  {
    Thread(StepOf(cfg, env), db, ops)
  }

  /** Running two batches one after the other is running their
      concatenation. */
  lemma RunConcat(db: Db, cfg: Config, env: Env, a: seq<InventoryOperation>, b: seq<InventoryOperation>)
    ensures Run(db, cfg, env, a + b).0 == Run(Run(db, cfg, env, a).0, cfg, env, b).0
    ensures Run(db, cfg, env, a + b).1 == Run(db, cfg, env, a).1 + Run(Run(db, cfg, env, a).0, cfg, env, b).1
  {
    ThreadConcat(StepOf(cfg, env), db, a, b);
  }

  /** The error list of a batch: one entry per failed operation, with its
      index and error. */
  function Failures(es: seq<Option<Error>>): (r: seq<BatchOperationError>)
    ensures |r| <= |es|
    decreases |es|
  {
    if es == [] then []
    else
      var last := |es| - 1;
      Failures(es[..last]) + (if es[last].Some? then [BatchOperationError(last, es[last].value)] else [])
  }

  /** The error list is exactly the failed operations, in index order: every
      entry names a failed operation and its error, the indices ascend, and
      no failed operation is missing. */
  lemma {:induction false} FailuresExact(es: seq<Option<Error>>)
    ensures var r := Failures(es);
            && (forall j :: 0 <= j < |r| ==> r[j].operationIndex < |es| && es[r[j].operationIndex] == Some(r[j].error))
            && (forall j, k :: 0 <= j < k < |r| ==> r[j].operationIndex < r[k].operationIndex)
            && (forall i :: 0 <= i < |es| && es[i].Some? ==> exists j :: 0 <= j < |r| && r[j].operationIndex == i)
    decreases |es|
  {
    if es != [] {
      var last := |es| - 1;
      var prefix := es[..last];
      var f := Failures(prefix);
      var r := Failures(es);
      FailuresExact(prefix);
      assert forall i :: 0 <= i < last ==> prefix[i] == es[i];
      assert forall j :: 0 <= j < |f| ==> r[j] == f[j];
      forall i | 0 <= i < |es| && es[i].Some?
        ensures exists j :: 0 <= j < |r| && r[j].operationIndex == i
      {
        if i == last {
          assert r[|f|].operationIndex == i;
        } else {
          assert prefix[i].Some?;
          var j :| 0 <= j < |f| && f[j].operationIndex == i;
          assert r[j].operationIndex == i;
        }
      }
    }
  }

  /** The error list is empty exactly when no operation failed. */
  lemma {:induction false} FailuresEmpty(es: seq<Option<Error>>)
    ensures Failures(es) == [] <==> forall i :: 0 <= i < |es| ==> es[i].None?
    decreases |es|
  {
    if es != [] {
      var last := |es| - 1;
      FailuresEmpty(es[..last]);
      assert forall i :: 0 <= i < last ==> es[..last][i] == es[i];
    }
  }

  /** One more operation extends the reference run by its outcome. */
  lemma RunStep(db: Db, cfg: Config, env: Env, ops: seq<InventoryOperation>, i: nat)
    requires i < |ops|
    ensures var p := Run(db, cfg, env, ops[..i]);
            var o := Apply(p.0, cfg, env, ops[i]);
            Run(db, cfg, env, ops[..i + 1]) == (o.db, p.1 + [o.err])
  {
    assert ops[..i + 1][..i] == ops[..i];
  }

  /** One more outcome extends the error list by at most its failure. */
  lemma FailuresStep(es: seq<Option<Error>>, e: Option<Error>)
    ensures Failures(es + [e]) == Failures(es) + (if e.Some? then [BatchOperationError(|es|, e.value)] else [])
  {
    assert (es + [e])[..|es|] == es;
  }

  /** Runs the operations in order, collecting each outcome and each
      failure. */
  method RunAll(db: Db, cfg: Config, env: Env, ops: seq<InventoryOperation>)
    returns (d: Db, outcomes: seq<Option<Error>>, errors: seq<BatchOperationError>)
    ensures (d, outcomes) == Run(db, cfg, env, ops)
    ensures errors == Failures(outcomes)
  {
    d := db;
    outcomes := [];
    errors := [];
    var i := 0;
    while i < |ops|
      invariant 0 <= i <= |ops|
      invariant (d, outcomes) == Run(db, cfg, env, ops[..i])
      invariant errors == Failures(outcomes)
    {
      var o := Apply(d, cfg, env, ops[i]);
      RunStep(db, cfg, env, ops, i);
      FailuresStep(outcomes, o.err);
      if o.err.Some? {
        errors := errors + [BatchOperationError(|outcomes|, o.err.value)];
      }
      outcomes := outcomes + [o.err];
      d := o.db;
      i := i + 1;
    }
    assert ops[..|ops|] == ops;
  }

  /** Runs a batch: every operation in order, each failure recorded with its
      index, the counts kept, and the batch marked failed when any operation
      failed. The state after the batch is returned alongside it. */
  method ExecuteBatch(db: Db, cfg: Config, env: Env, id: string, created: Time, completed: Time, ops: seq<InventoryOperation>)
    returns (batch: BatchOperation, d: Db)
    ensures d == Run(db, cfg, env, ops).0
    ensures batch.errors == Failures(Run(db, cfg, env, ops).1)
    ensures batch.failureCount == |batch.errors| && batch.successCount + batch.failureCount == |ops|
    ensures batch.status == Completed <==> forall i :: 0 <= i < |ops| ==> Run(db, cfg, env, ops).1[i].None?
    ensures batch.status == Completed || batch.status == Failed
    ensures batch.id == id && batch.operations == ops
    ensures batch.createdAt == created && batch.completedAt == Some(completed)
  {
    var outcomes, errors;
    d, outcomes, errors := RunAll(db, cfg, env, ops);
    FailuresEmpty(outcomes);
    var failures := |errors|;
    batch := BatchOperation(id, ops, if failures > 0 then Failed else Completed,
                            |ops| - failures, failures, errors, created, Some(completed));
  }

  /** Every operation of a batch keeps the table well formed and every
      `available` derived, and only appends to the journal and alerts. */
  lemma ApplyKeepsInvariants(db: Db, cfg: Config, env: Env, op: InventoryOperation)
    requires Wf(db) && AllDerived(db)
    ensures var r := Apply(db, cfg, env, op); Wf(r.db) && AllDerived(r.db) && Appends(db, r.db)
  {
    if op.kind == AddOp {
      AddKeepsInvariants(db, cfg, env, op.itemId, op.locationId, op.quantity, op.reference);
    } else if op.kind == RemoveOp {
      RemoveKeepsInvariants(db, cfg, env, op.itemId, op.locationId, op.quantity, op.reference);
    } else if op.kind == TransferOp && op.toLocationId.Some? {
      TransferKeepsInvariants(db, cfg, env, op.itemId, op.locationId, op.toLocationId.value, op.quantity, op.reference);
    } else if op.kind == AdjustOp {
      AdjustKeepsInvariants(db, cfg, env, op.itemId, op.locationId, op.quantity, op.reference);
    }
  }

  /** A whole batch keeps the same invariants. */
  lemma {:induction false} RunKeepsInvariants(db: Db, cfg: Config, env: Env, ops: seq<InventoryOperation>)
    requires Wf(db) && AllDerived(db)
    ensures var d := Run(db, cfg, env, ops).0; Wf(d) && AllDerived(d) && Appends(db, d)
    decreases |ops|
  {
    if ops != [] {
      var p := Run(db, cfg, env, ops[..|ops| - 1]);
      RunKeepsInvariants(db, cfg, env, ops[..|ops| - 1]);
      ApplyKeepsInvariants(p.0, cfg, env, ops[|ops| - 1]);
    }
  }

  /** The status of a batch by id. Batches are not stored, so any non-empty
      id yields a completed, empty batch created an hour before `now`. */
  function GetBatchStatus(id: string, now: Time): (r: Result<BatchOperation, Error>)
    ensures id == [] <==> r == Err(Validation("batch_id", Missing))
    ensures r.Ok? ==> r.value.id == id && r.value.status == Completed && r.value.operations == []
                      && r.value.successCount == 0 && r.value.failureCount == 0 && r.value.errors == []
                      && r.value.createdAt == now - Hour && r.value.completedAt == Some(now)
  {
    if id == [] then Err(Validation("batch_id", Missing))
    else Ok(BatchOperation(id, [], Completed, 0, 0, [], now - Hour, Some(now)))
  }
}
