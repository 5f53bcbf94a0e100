/** Optimistic locking on the stock table (postgres.go, UpdateStock, with
    the read-compute-write pattern of manager.go). Concurrent callers are
    modelled as writers whose steps interleave on one shared store: a writer
    reads a record, computes the record with its quantity moved and its
    version one higher, and submits it through the version-checked update.
    A writer whose read has gone stale is refused and does not retry, as in
    the manager. */
module Concurrency {
  import opened Wrappers
  import opened Types
  import opened Store

  /** Where a writer is: not yet read, holding the record it read, or
      finished with its update accepted or refused. */
  datatype Phase = Idle | Holding(read: Stock) | Succeeded | Conflicted

  /** A writer adding `delta` to one record's quantity. */
  datatype Writer = Writer(delta: Int64, phase: Phase)

  /** The record a writer submits after reading `s`: the quantity moved by
      `delta` in int64 arithmetic, `available` recomputed, the version one
      past the one read. */
  function Bumped(s: Stock, delta: Int64): (r: Stock)
    ensures r.PrimaryKey() == s.PrimaryKey() && r.reserved == s.reserved
    ensures r.quantity == Wrap64(s.quantity + delta) && r.version == Wrap64(s.version + 1)
    ensures AvailableDerived(r)
  {
    CalculateAvailable(s.(quantity := Wrap64(s.quantity + delta), version := Wrap64(s.version + 1)))
  }

  /** Two writers that read the same record: the first update is accepted
      and the second is refused with a version mismatch, so neither change
      overwrites the other. */
  lemma SameReadOneWins(db: Db, k: Key, d1: Int64, d2: Int64)
    requires Wf(db) && k in db.stocks
    ensures var s := db.stocks[k];
            var first := UpdateStock(db, Bumped(s, d1), false);
            && first.Ok?
            && first.value.stocks[k] == Bumped(s, d1)
            && UpdateStock(first.value, Bumped(s, d2), false) == Err(VersionMismatch)
  {
    var s := db.stocks[k];
    Wrap64AddLeft(s.version + 1, -1);
    var d := UpdateStock(db, Bumped(s, d1), false).value;
    assert GetStock(d, s.itemId, s.locationId) == Ok(Bumped(s, d1));
    assert d.stocks[k].version != s.version by {
      if s.version == MaxInt64 {
        assert Wrap64(s.version + 1) == MinInt64;
      }
    }
  }

  /** One step of writer `i` on the record under `k`; an index without a
      writer, or a finished writer, changes nothing. */
  function Step(db: Db, ws: seq<Writer>, i: nat, k: Key): (r: (Db, seq<Writer>))
    ensures |r.1| == |ws|
  {
    if i >= |ws| then (db, ws)
    else
      var w := ws[i];
      match w.phase
      case Idle =>
        (match GetStock(db, k.itemId, k.locationId)
         case Ok(s) => (db, ws[i := w.(phase := Holding(s))])
         case Err(_) => (db, ws[i := w.(phase := Conflicted)]))
      case Holding(s) =>
        (match UpdateStock(db, Bumped(s, w.delta), false)
         case Ok(d) => (d, ws[i := w.(phase := Succeeded)])
         case Err(_) => (db, ws[i := w.(phase := Conflicted)]))
      case Succeeded => (db, ws)
      case Conflicted => (db, ws)
  }

  /** The state after the writers' steps in the order `schedule` gives. */
  function Run(db: Db, ws: seq<Writer>, schedule: seq<nat>, k: Key): (r: (Db, seq<Writer>))
    ensures |r.1| == |ws|
    decreases |schedule|
  {
    if schedule == [] then (db, ws)
    else
      var n := |schedule| - 1;
      var p := Run(db, ws, schedule[..n], k);
      Step(p.0, p.1, schedule[n], k)
  }

  /** How many writers had their update accepted. */
  function Successes(ws: seq<Writer>): (n: nat)
    ensures n <= |ws|
  {
    if ws == [] then 0 else (if ws[0].phase.Succeeded? then 1 else 0) + Successes(ws[1..])
  }

  /** The sum of the deltas of the writers whose update was accepted. */
  function Gained(ws: seq<Writer>): int {
    if ws == [] then 0 else (if ws[0].phase.Succeeded? then ws[0].delta else 0) + Gained(ws[1..])
  }

  /** Changing one writer changes the tallies by that writer alone. */
  lemma {:induction false} TallyUpdate(ws: seq<Writer>, i: nat, w: Writer)
    requires i < |ws|
    ensures Successes(ws[i := w]) == Successes(ws) - (if ws[i].phase.Succeeded? then 1 else 0)
                                     + (if w.phase.Succeeded? then 1 else 0)
    ensures Gained(ws[i := w]) == Gained(ws) - (if ws[i].phase.Succeeded? then ws[i].delta else 0)
                                 + (if w.phase.Succeeded? then w.delta else 0)
  {
    if i > 0 {
      TallyUpdate(ws[1..], i - 1, w);
      assert ws[i := w][1..] == ws[1..][i - 1 := w];
    }
  }

  /** No writer is past its read. */
  predicate AllIdle(ws: seq<Writer>) {
    forall i :: 0 <= i < |ws| ==> ws[i].phase.Idle?
  }

  lemma {:induction false} IdleTally(ws: seq<Writer>)
    requires AllIdle(ws)
    ensures Successes(ws) == 0 && Gained(ws) == 0
  {
    if ws != [] {
      IdleTally(ws[1..]);
    }
  }

  /** A held read is no newer than the stored record, and a read of the
      current version is the current record. */
  predicate Current(s: Stock, cur: Stock) {
    s.version <= cur.version && (s.version == cur.version ==> s == cur)
  }

  /** The state of a run started from a record with quantity `q0` and
      version `v0`: every accepted update is counted in the version and
      added to the quantity, and every held read is of an earlier or the
      current record. */
  predicate Inv(db: Db, ws: seq<Writer>, k: Key, q0: Int64, v0: Int64) {
    && k in db.stocks
    && db.stocks[k].PrimaryKey() == k
    && db.stocks[k].version == v0 + Successes(ws)
    && db.stocks[k].quantity == Wrap64(q0 + Gained(ws))
    && forall i :: 0 <= i < |ws| && ws[i].phase.Holding? ==>
         ws[i].phase.read.PrimaryKey() == k && Current(ws[i].phase.read, db.stocks[k])
  }

  /** An accepted update installs the writer's record; a refused one leaves
      the store as it was. */
  lemma AcceptedUpdate(db: Db, ws: seq<Writer>, i: nat, k: Key, q0: Int64, v0: Int64)
    requires Inv(db, ws, k, q0, v0) && v0 + |ws| < MaxInt64
    requires i < |ws| && ws[i].phase.Holding?
    ensures var s := ws[i].phase.read;
            var r := UpdateStock(db, Bumped(s, ws[i].delta), false);
            && (r.Ok? <==> s == db.stocks[k])
            && (r.Ok? ==> r.value.stocks[k] == Bumped(s, ws[i].delta) && k in r.value.stocks)
  {
    var s := ws[i].phase.read;
    assert s.version + 1 <= MaxInt64;
    assert Wrap64(s.version + 1) == s.version + 1;
    var r := UpdateStock(db, Bumped(s, ws[i].delta), false);
    if r.Ok? {
      assert GetStock(r.value, s.itemId, s.locationId) == Ok(Bumped(s, ws[i].delta));
    }
  }

  /** The write step of a writer holding a read keeps the invariant. */
  lemma WriteKeepsInv(db: Db, ws: seq<Writer>, i: nat, k: Key, q0: Int64, v0: Int64)
    requires Inv(db, ws, k, q0, v0) && v0 + |ws| < MaxInt64
    requires i < |ws| && ws[i].phase.Holding?
    ensures var r := Step(db, ws, i, k); Inv(r.0, r.1, k, q0, v0)
  {
    var w := ws[i];
    AcceptedUpdate(db, ws, i, k, q0, v0);
    match UpdateStock(db, Bumped(w.phase.read, w.delta), false)
    case Ok(d) => AcceptedKeepsInv(db, ws, i, k, q0, v0, d);
    case Err(_) => RefusedKeepsInv(db, ws, i, k, q0, v0);
  }

  /** An accepted update counts once in the version and adds its delta to
      the quantity; every other held read is now older than the record. */
  lemma AcceptedKeepsInv(db: Db, ws: seq<Writer>, i: nat, k: Key, q0: Int64, v0: Int64, d: Db)
    requires Inv(db, ws, k, q0, v0) && v0 + |ws| < MaxInt64
    requires i < |ws| && ws[i].phase.Holding? && ws[i].phase.read == db.stocks[k]
    requires k in d.stocks && d.stocks[k] == Bumped(ws[i].phase.read, ws[i].delta)
    ensures Inv(d, ws[i := ws[i].(phase := Succeeded)], k, q0, v0)
  {
    var w := ws[i];
    var ws' := ws[i := w.(phase := Succeeded)];
    var s := w.phase.read;
    TallyUpdate(ws, i, ws'[i]);
    assert Wrap64(s.version + 1) == s.version + 1;
    WrapAccumulates(q0, Gained(ws), w.delta, Gained(ws'));
    forall j | 0 <= j < |ws| && ws'[j].phase.Holding?
      ensures ws'[j].phase.read.PrimaryKey() == k && Current(ws'[j].phase.read, d.stocks[k])
    {
      assert ws[j] == ws'[j];
    }
  }

  /** A refused update leaves the tallies and the record as they were. */
  lemma RefusedKeepsInv(db: Db, ws: seq<Writer>, i: nat, k: Key, q0: Int64, v0: Int64)
    requires Inv(db, ws, k, q0, v0)
    requires i < |ws| && ws[i].phase.Holding?
    ensures Inv(db, ws[i := ws[i].(phase := Conflicted)], k, q0, v0)
  {
    var ws' := ws[i := ws[i].(phase := Conflicted)];
    TallyUpdate(ws, i, ws'[i]);
    forall j | 0 <= j < |ws| && ws'[j].phase.Holding?
      ensures ws'[j].phase.read.PrimaryKey() == k && Current(ws'[j].phase.read, db.stocks[k])
    {
      assert ws[j] == ws'[j];
    }
  }

  /** Adding a delta to a wrapped running total is wrapping the total with
      the delta added. */
  lemma WrapAccumulates(q0: int, g: int, delta: int, g': int)
    requires g' == g + delta
    ensures Wrap64(Wrap64(q0 + g) + delta) == Wrap64(q0 + g')
  {
    Wrap64AddLeft(q0 + g, delta);
    assert q0 + g + delta == q0 + g';
  }

  /** Every step keeps the invariant. */
  lemma StepKeepsInv(db: Db, ws: seq<Writer>, i: nat, k: Key, q0: Int64, v0: Int64)
    requires Inv(db, ws, k, q0, v0) && v0 + |ws| < MaxInt64
    ensures var r := Step(db, ws, i, k); Inv(r.0, r.1, k, q0, v0)
  {
    if i < |ws| {
      if ws[i].phase.Idle? {
        TallyUpdate(ws, i, Step(db, ws, i, k).1[i]);
      } else if ws[i].phase.Holding? {
        WriteKeepsInv(db, ws, i, k, q0, v0);
      }
    }
  }

  /** Whatever the interleaving, no accepted update is lost: the record's
      version counts the accepted updates and its quantity is the starting
      quantity plus exactly their deltas, in int64 arithmetic. */
  lemma NoLostUpdate(db: Db, ws: seq<Writer>, schedule: seq<nat>, k: Key)
    requires Wf(db) && k in db.stocks && AllIdle(ws)
    requires db.stocks[k].version + |ws| < MaxInt64
    ensures var r := Run(db, ws, schedule, k);
            && k in r.0.stocks
            && r.0.stocks[k].version == db.stocks[k].version + Successes(r.1)
            && r.0.stocks[k].quantity == Wrap64(db.stocks[k].quantity + Gained(r.1))
  {
    RunKeepsInv(db, ws, schedule, k);
  }

  lemma {:induction false} RunKeepsInv(db: Db, ws: seq<Writer>, schedule: seq<nat>, k: Key)
    requires Wf(db) && k in db.stocks && AllIdle(ws)
    requires db.stocks[k].version + |ws| < MaxInt64
    ensures Inv(Run(db, ws, schedule, k).0, Run(db, ws, schedule, k).1, k, db.stocks[k].quantity, db.stocks[k].version)
    decreases |schedule|
  {
    var q0 := db.stocks[k].quantity;
    var v0 := db.stocks[k].version;
    if schedule == [] {
      IdleTally(ws);
    } else {
      var n := |schedule| - 1;
      RunKeepsInv(db, ws, schedule[..n], k);
      var p := Run(db, ws, schedule[..n], k);
      StepKeepsInv(p.0, p.1, schedule[n], k, q0, v0);
    }
  }
}
