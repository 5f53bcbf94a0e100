/** Properties of the stock ledger that relate several calls or hold for
    every operation: inverse pairs, the exact effect of a transfer and its
    conservation of stock, the compensation path of a failed transfer, the
    unreachable negative-stock check, and the invariants every mutation
    keeps. */
module LedgerProperties {
  import opened Wrappers
  import opened Types
  import opened Store
  import opened Ledger

  /** Every record's `available` is derived from its counters. */
  predicate AllDerived(db: Db) {
    forall k :: k in db.stocks ==> AvailableDerived(db.stocks[k])
  }

  /** The journal and the alert list only grow at their ends. */
  predicate Appends(a: Db, b: Db) {
    a.journal <= b.journal && a.alerts <= b.alerts
  }

  /** A record whose `available` is exactly `quantity - reserved`, without
      wrap-around. */
  predicate Exact(s: Stock) {
    s.available == s.quantity - s.reserved
  }

  // ---------------------------------------------------------------------
  // Writing one record
  // ---------------------------------------------------------------------

  /** A second write of the same key overrides the first. */
  lemma PutPut(db: Db, a: Stock, b: Stock)
    requires a.PrimaryKey() == b.PrimaryKey()
    ensures Put(Put(db, a), b) == Put(db, b)
  {
    var k := a.PrimaryKey();
    assert db.stocks[k := a][k := b] == db.stocks[k := b];
  }

  /** The item total after a write, in terms of the total before. */
  lemma SumAfterPut(db: Db, s: Stock, item: string)
    requires Wf(db)
    ensures var k := s.PrimaryKey();
            QuantitySum(Put(db, s).rows, Put(db, s).stocks, item)
            == QuantitySum(db.rows, db.stocks, item)
               + (if k.itemId == item then s.quantity - (if k in db.stocks then db.stocks[k].quantity else 0) else 0)
  {
    var k := s.PrimaryKey();
    if k in db.stocks {
      QuantitySumUpdate(db.rows, db.stocks, k, s, item);
    } else {
      assert k !in db.rows;
      QuantitySumOverride(db.rows, db.stocks, k, s, item);
      QuantitySumAppend(db.rows, db.stocks[k := s], k, item);
    }
  }

  /** Writing a derived record keeps every record derived. */
  lemma PutKeepsDerived(db: Db, s: Stock)
    requires AllDerived(db) && AvailableDerived(s)
    ensures AllDerived(Put(db, s))
  {
  }

  // ---------------------------------------------------------------------
  // Remove's negative-stock check
  // ---------------------------------------------------------------------

  /** With a non-negative reservation and an exactly derived `available`,
      passing the availability check leaves at least the reservation on
      hand, so the negative-stock refusal never fires. */
  lemma NegativeCheckUnreachable(db: Db, cfg: Config, env: Env, item: string, loc: string, q: Int64, reference: string)
    requires Key(item, loc) in db.stocks
    requires db.stocks[Key(item, loc)].reserved >= 0 && Exact(db.stocks[Key(item, loc)])
    ensures Remove(db, cfg, env, item, loc, q, reference).err != Some(BusinessRule("negative_stock"))
  {
    var o := db.stocks[Key(item, loc)];
    if q > 0 && o.available >= q {
      assert o.quantity - q >= o.reserved >= 0;
      assert Wrap64(o.quantity - q) == o.quantity - q;
    }
  }

  /** Without the exactness premise the check is reachable: a record whose
      `quantity - reserved` wrapped around to a large `available`. */
  lemma NegativeCheckReachableUnderWrap()
    ensures
      var k := Key("i", "l");
      var s := Stock("i", "l", MinInt64 + 5, 10, Wrap64(MinInt64 + 5 - 10), 1, 0, "system");
      var db := Db(map["i" := Item("i", "n", "", "", "", 1.0, 0, 0)],
                   map["l" := Location("l", "n", "", "", 0, true, 0, 0)],
                   map[k := s], [k], [], [], []);
      && s.reserved >= 0 && AvailableDerived(s)
      && Remove(db, DefaultConfig, Env(0, None, true, true, {}), "i", "l", 1, "").err == Some(BusinessRule("negative_stock"))
  {
    assert Wrap64(MinInt64 + 5 - 10) == MaxInt64 - 4;
    assert Wrap64(MinInt64 + 5 - 1) == MinInt64 + 4;
  }

  // ---------------------------------------------------------------------
  // Inverse pairs
  // ---------------------------------------------------------------------

  /** Removing `q` from a state in which the record was just credited by
      `q` restores its quantity and available stock; the version has moved
      on by two. */
  lemma DebitCredited(db: Db, d: Db, cfg: Config, env: Env, item: string, loc: string, q: Int64, reference: string,
                      j: seq<Transaction>)
    requires Key(item, loc) in db.stocks && item in db.items && loc in db.locations && q > 0
    requires var o := db.stocks[Key(item, loc)];
             0 <= o.reserved <= o.quantity && Exact(o) && InInt64(o.quantity + q)
    requires var o := db.stocks[Key(item, loc)];
             d == Put(db, Build(Key(item, loc), o.quantity + q, o.reserved, Wrap64(o.version + 1), env)).(journal := j)
    requires !Blocked(env, Key(item, loc), Wrap64(db.stocks[Key(item, loc)].version + 2))
    ensures var o := db.stocks[Key(item, loc)];
            var r := Remove(d, cfg, env, item, loc, q, reference);
            && r.err.None?
            && Installed(r.db, Key(item, loc), o.quantity, o.reserved, Wrap64(o.version + 2), env)
            && r.db.stocks[Key(item, loc)].available == o.available
  {
    var k := Key(item, loc);
    var o := db.stocks[k];
    var s := d.stocks[k];
    Wrap64AddLeft(o.version + 1, 1);
    assert s.available == o.available + q >= q;
    assert Wrap64(s.quantity - q) == o.quantity;
    assert NextVersion(d, k) == Wrap64(o.version + 2);
    assert Wrap64(o.quantity - o.reserved) == o.available;
  }

  /** Removing what was just added restores the quantity, the reservation
      and the available stock; the version has moved on by two. */
  lemma AddThenRemove(db: Db, cfg: Config, env: Env, item: string, loc: string, q: Int64, reference: string)
    requires Add(db, cfg, env, item, loc, q, reference).err.None?
    requires Key(item, loc) in db.stocks
    requires var o := db.stocks[Key(item, loc)];
             0 <= o.reserved <= o.quantity && Exact(o) && InInt64(o.quantity + q)
    requires !Blocked(env, Key(item, loc), Wrap64(db.stocks[Key(item, loc)].version + 2))
    ensures var o := db.stocks[Key(item, loc)];
            var r := Remove(Add(db, cfg, env, item, loc, q, reference).db, cfg, env, item, loc, q, reference);
            && r.err.None?
            && Installed(r.db, Key(item, loc), o.quantity, o.reserved, Wrap64(o.version + 2), env)
            && r.db.stocks[Key(item, loc)].available == o.available
  {
    var a := Add(db, cfg, env, item, loc, q, reference);
    DebitCredited(db, a.db, cfg, env, item, loc, q, reference, a.db.journal);
  }

  /** Releasing `q` from a state in which the record's reservation was just
      raised by `q` restores the reservation; the version has moved on by
      two. */
  lemma ReleaseReserved(db: Db, d: Db, env: Env, item: string, loc: string, q: Int64, reference: string)
    requires Key(item, loc) in db.stocks && q > 0
    requires var o := db.stocks[Key(item, loc)]; o.reserved >= 0 && InInt64(o.reserved + q)
    requires var o := db.stocks[Key(item, loc)];
             d == Put(db, Build(Key(item, loc), o.quantity, o.reserved + q, Wrap64(o.version + 1), env))
    requires !Blocked(env, Key(item, loc), Wrap64(db.stocks[Key(item, loc)].version + 2))
    ensures var o := db.stocks[Key(item, loc)];
            var r := ReleaseReservation(d, env, item, loc, q, reference);
            && r.err.None?
            && r.db == Put(db, Build(Key(item, loc), o.quantity, o.reserved, Wrap64(o.version + 2), env))
  {
    var k := Key(item, loc);
    var o := db.stocks[k];
    var s1 := Build(k, o.quantity, o.reserved + q, Wrap64(o.version + 1), env);
    var s2 := Build(k, o.quantity, o.reserved, Wrap64(o.version + 2), env);
    assert d.stocks[k] == s1;
    Wrap64AddLeft(o.version + 1, 1);
    assert Wrap64(s1.reserved - q) == o.reserved;
    ReleaseHeld(d, env, item, loc, q, reference);
    WriteTwice(db, d, ReleaseReservation(d, env, item, loc, q, reference).db, s1, s2);
  }

  /** Releasing at most what a record holds reserved writes it with `q`
      fewer reserved and its version one up, unless the write is rejected. */
  lemma ReleaseHeld(d: Db, env: Env, item: string, loc: string, q: Int64, reference: string)
    requires Key(item, loc) in d.stocks && 0 < q <= d.stocks[Key(item, loc)].reserved
    requires !Blocked(env, Key(item, loc), Wrap64(d.stocks[Key(item, loc)].version + 1))
    ensures var s := d.stocks[Key(item, loc)];
            var r := ReleaseReservation(d, env, item, loc, q, reference);
            && r.err.None?
            && r.db == Put(d, Build(Key(item, loc), s.quantity, Wrap64(s.reserved - q), Wrap64(s.version + 1), env))
  {
  }

  /** A state reached by two writes of one key is the state after the
      second write alone. */
  lemma WriteTwice(db: Db, d: Db, e: Db, s1: Stock, s2: Stock)
    requires s1.PrimaryKey() == s2.PrimaryKey() && d == Put(db, s1) && e == Put(d, s2)
    ensures e == Put(db, s2)
  {
    PutPut(db, s1, s2);
  }

  /** Releasing what was just reserved restores the record's counters;
      its version has moved on by two. Nothing is journalled. */
  lemma ReserveThenRelease(db: Db, env: Env, item: string, loc: string, q: Int64, reference: string)
    requires Reserve(db, env, item, loc, q, reference).err.None?
    requires var o := db.stocks[Key(item, loc)]; o.reserved >= 0 && InInt64(o.reserved + q)
    requires !Blocked(env, Key(item, loc), Wrap64(db.stocks[Key(item, loc)].version + 2))
    ensures var o := db.stocks[Key(item, loc)];
            var r := ReleaseReservation(Reserve(db, env, item, loc, q, reference).db, env, item, loc, q, reference);
            && r.err.None?
            && r.db == Put(db, Build(Key(item, loc), o.quantity, o.reserved, Wrap64(o.version + 2), env))
  {
    ReleaseReserved(db, Reserve(db, env, item, loc, q, reference).db, env, item, loc, q, reference);
  }

  /** Setting the same quantity twice: the second adjustment keeps the
      quantity and journals a zero difference. */
  lemma AdjustTwice(db: Db, cfg: Config, env: Env, item: string, loc: string, n: Int64, reference: string)
    requires Adjust(db, cfg, env, item, loc, n, reference).err.None?
    requires !Blocked(env, Key(item, loc), NextVersion(Adjust(db, cfg, env, item, loc, n, reference).db, Key(item, loc)))
    ensures var a := Adjust(db, cfg, env, item, loc, n, reference);
            var b := Adjust(a.db, cfg, env, item, loc, n, reference);
            && b.err.None?
            && b.db.stocks[Key(item, loc)].quantity == n == a.db.stocks[Key(item, loc)].quantity
            && b.db.journal == a.db.journal + Logged(env, [Entry(|a.db.journal|, env, AdjustKind, item, None, Some(loc), 0, reference)])
  {
  }

  // ---------------------------------------------------------------------
  // Transfer
  // ---------------------------------------------------------------------

  /** The steps a successful transfer took. */
  lemma TransferSucceeded(db: Db, cfg: Config, env: Env, item: string, from: string, to: string, q: Int64, reference: string)
    requires Transfer(db, cfg, env, item, from, to, q, reference).err.None?
    ensures from != to && q > 0 && to in db.locations
    ensures var out := Remove(db, cfg, env, item, from, q, reference);
            var into := Add(out.db, cfg, env, item, to, q, reference);
            && out.err.None? && into.err.None?
            && Transfer(db, cfg, env, item, from, to, q, reference)
               == Outcome(Record(into.db, env, Entry(|into.db.journal|, env, TransferKind, item, Some(from), Some(to), q, reference)), None)
  {
  }

  /** The steps a transfer takes when its addition fails. */
  lemma TransferCompensated(db: Db, cfg: Config, env: Env, item: string, from: string, to: string, q: Int64, reference: string)
    requires from != to && to in db.locations
    requires Remove(db, cfg, env, item, from, q, reference).err.None?
    requires Add(Remove(db, cfg, env, item, from, q, reference).db, cfg, env, item, to, q, reference).err.Some?
    ensures var out := Remove(db, cfg, env, item, from, q, reference);
            var into := Add(out.db, cfg, env, item, to, q, reference);
            Transfer(db, cfg, env, item, from, to, q, reference)
            == Outcome(Add(out.db, cfg, env, item, from, q, reference + "_ROLLBACK").db, into.err)
  {
  }

  /** The three journal entries of a successful transfer, numbered from
      `n`. */
  function TransferEntries(env: Env, n: nat, item: string, from: string, to: string, q: Int64, reference: string): seq<Transaction> {
    [Entry(n, env, Outbound, item, Some(from), None, q, reference),
     Entry(n + 1, env, Inbound, item, None, Some(to), q, reference),
     Entry(n + 2, env, TransferKind, item, Some(from), Some(to), q, reference)]
  }

  /** The destination record a successful transfer writes: the existing
      record credited, or a new one holding `q`. */
  function Credited(db: Db, env: Env, k: Key, q: Int64): (s: Stock)
    ensures s.PrimaryKey() == k && AvailableDerived(s)
  {
    if k in db.stocks then
      var d := db.stocks[k];
      Build(k, Wrap64(d.quantity + q), d.reserved, Wrap64(d.version + 1), env)
    else Build(k, q, 0, 1, env)
  }

  /** Writing a record commutes with replacing the journal and alerts. */
  lemma PutUnderLog(d: Db, s: Stock, j: seq<Transaction>, a: seq<StockAlert>)
    ensures Put(d.(journal := j, alerts := a), s) == Put(d, s).(journal := j, alerts := a)
  {
  }

  /** The debited source record of a successful removal of `q`. */
  function Debited(db: Db, env: Env, k: Key, q: Int64): (s: Stock)
    requires k in db.stocks
    ensures s.PrimaryKey() == k && AvailableDerived(s)
    ensures s.quantity == Wrap64(db.stocks[k].quantity - q) && s.reserved == db.stocks[k].reserved
  {
    var o := db.stocks[k];
    Build(k, Wrap64(o.quantity - q), o.reserved, Wrap64(o.version + 1), env)
  }

  /** The state after a successful removal, in terms of the debited
      record. */
  lemma RemoveState(db: Db, cfg: Config, env: Env, item: string, loc: string, q: Int64, reference: string)
    requires Remove(db, cfg, env, item, loc, q, reference).err.None?
    ensures Key(item, loc) in db.stocks
    ensures Remove(db, cfg, env, item, loc, q, reference).db
            == Put(db, Debited(db, env, Key(item, loc), q))
                 .(journal := db.journal + Logged(env, [Entry(|db.journal|, env, Outbound, item, Some(loc), None, q, reference)]),
                   alerts := db.alerts + Raised(db, cfg, env, item, loc, Wrap64(db.stocks[Key(item, loc)].quantity - q)))
  {
  }

  /** The state after a successful addition, in terms of the credited
      record. */
  lemma AddState(db: Db, cfg: Config, env: Env, item: string, loc: string, q: Int64, reference: string)
    requires Add(db, cfg, env, item, loc, q, reference).err.None?
    ensures Add(db, cfg, env, item, loc, q, reference).db
            == Put(db, Credited(db, env, Key(item, loc), q))
                 .(journal := db.journal + Logged(env, [Entry(|db.journal|, env, Inbound, item, None, Some(loc), q, reference)]))
  {
  }

  /** Crediting a record is unaffected by a write of another key or by the
      journal and alerts. */
  lemma CreditedElsewhere(db: Db, s: Stock, j: seq<Transaction>, a: seq<StockAlert>, env: Env, k: Key, q: Int64)
    requires s.PrimaryKey() != k
    ensures Credited(Put(db, s).(journal := j, alerts := a), env, k, q) == Credited(db, env, k, q)
  {
  }

  /** The state after the debit and the credit of a transfer, before its
      own journal entry: both records written, the outbound and inbound
      entries journalled, the source's alert raised. */
  lemma CreditAfterDebit(db: Db, cfg: Config, env: Env, item: string, from: string, to: string, q: Int64, reference: string)
    requires from != to
    requires Remove(db, cfg, env, item, from, q, reference).err.None?
    requires Add(Remove(db, cfg, env, item, from, q, reference).db, cfg, env, item, to, q, reference).err.None?
    ensures Key(item, from) in db.stocks
    ensures var out := Remove(db, cfg, env, item, from, q, reference);
            var into := Add(out.db, cfg, env, item, to, q, reference);
            var n := |db.journal|;
            into.db == Put(Put(db, Debited(db, env, Key(item, from), q)), Credited(db, env, Key(item, to), q))
                         .(journal := db.journal + Logged(env, TransferEntries(env, n, item, from, to, q, reference)[..2]),
                           alerts := db.alerts + Raised(db, cfg, env, item, from, Wrap64(db.stocks[Key(item, from)].quantity - q)))
  {
    RemoveState(db, cfg, env, item, from, q, reference);
    var out := Remove(db, cfg, env, item, from, q, reference);
    AddState(out.db, cfg, env, item, to, q, reference);
    DebitThenCredit(db, env, item, from, to, q, reference,
                    db.alerts + Raised(db, cfg, env, item, from, Wrap64(db.stocks[Key(item, from)].quantity - q)),
                    out.db, Add(out.db, cfg, env, item, to, q, reference).db);
  }

  /** The debit of a transfer's source followed by the credit of its
      destination, each journalled, is the two writes followed by the first
      two transfer entries. */
  lemma DebitThenCredit(db: Db, env: Env, item: string, from: string, to: string, q: Int64, reference: string,
                        a: seq<StockAlert>, mid: Db, last: Db)
    requires from != to && Key(item, from) in db.stocks
    requires mid == Put(db, Debited(db, env, Key(item, from), q))
                      .(journal := db.journal + Logged(env, [Entry(|db.journal|, env, Outbound, item, Some(from), None, q, reference)]),
                        alerts := a)
    requires last == Put(mid, Credited(mid, env, Key(item, to), q))
                       .(journal := mid.journal + Logged(env, [Entry(|mid.journal|, env, Inbound, item, None, Some(to), q, reference)]))
    ensures last == Put(Put(db, Debited(db, env, Key(item, from), q)), Credited(db, env, Key(item, to), q))
                      .(journal := db.journal + Logged(env, TransferEntries(env, |db.journal|, item, from, to, q, reference)[..2]),
                        alerts := a)
  {
    var src := Debited(db, env, Key(item, from), q);
    var j1 := mid.journal;
    var l2 := Logged(env, [Entry(|j1|, env, Inbound, item, None, Some(to), q, reference)]);
    ComposeDebitCredit(db, mid, last, src, env, Key(item, to), q, j1, a, l2);
    var es := TransferEntries(env, |db.journal|, item, from, to, q, reference);
    LogTwo(env, db.journal, es[0], Entry(|j1|, env, Inbound, item, None, Some(to), q, reference), es[1]);
    assert es[..2] == [es[0], es[1]];
  }

  /** A write of another key followed by a credit, with the journal and
      alerts set in between, is the two writes followed by the journal and
      alerts. */
  lemma ComposeDebitCredit(db: Db, mid: Db, last: Db, src: Stock, env: Env, k: Key, q: Int64,
                           j: seq<Transaction>, a: seq<StockAlert>, l: seq<Transaction>)
    requires src.PrimaryKey() != k
    requires mid == Put(db, src).(journal := j, alerts := a)
    requires last == Put(mid, Credited(mid, env, k, q)).(journal := mid.journal + l)
    ensures last == Put(Put(db, src), Credited(db, env, k, q)).(journal := j + l, alerts := a)
  {
    CreditedElsewhere(db, src, j, a, env, k, q);
    PutUnderLog(Put(db, src), Credited(db, env, k, q), j, a);
  }

  /** A successful transfer writes the debited source and the credited
      destination and nothing else, journals an outbound, an inbound and a
      transfer entry with consecutive ids, and raises the source's low-stock
      alert if it falls to the threshold. */
  lemma TransferEffect(db: Db, cfg: Config, env: Env, item: string, from: string, to: string, q: Int64, reference: string)
    requires Transfer(db, cfg, env, item, from, to, q, reference).err.None?
    ensures Key(item, from) in db.stocks
    ensures var r := Transfer(db, cfg, env, item, from, to, q, reference);
            r.db == Put(Put(db, Debited(db, env, Key(item, from), q)), Credited(db, env, Key(item, to), q))
                      .(journal := db.journal + Logged(env, TransferEntries(env, |db.journal|, item, from, to, q, reference)),
                        alerts := db.alerts + Raised(db, cfg, env, item, from, Wrap64(db.stocks[Key(item, from)].quantity - q)))
  {
    TransferSucceeded(db, cfg, env, item, from, to, q, reference);
    CreditAfterDebit(db, cfg, env, item, from, to, q, reference);
    var out := Remove(db, cfg, env, item, from, q, reference);
    TransferRecorded(Put(Put(db, Debited(db, env, Key(item, from), q)), Credited(db, env, Key(item, to), q)),
                     db.journal, db.alerts + Raised(db, cfg, env, item, from, Wrap64(db.stocks[Key(item, from)].quantity - q)),
                     Add(out.db, cfg, env, item, to, q, reference).db, env, item, from, to, q, reference);
  }

  /** Journalling the transfer entry after the outbound and inbound ones
      logs all three transfer entries. */
  lemma TransferRecorded(base: Db, j: seq<Transaction>, a: seq<StockAlert>, last: Db, env: Env,
                         item: string, from: string, to: string, q: Int64, reference: string)
    requires last == base.(journal := j + Logged(env, TransferEntries(env, |j|, item, from, to, q, reference)[..2]), alerts := a)
    ensures Record(last, env, Entry(|last.journal|, env, TransferKind, item, Some(from), Some(to), q, reference))
            == base.(journal := j + Logged(env, TransferEntries(env, |j|, item, from, to, q, reference)), alerts := a)
  {
    var es := TransferEntries(env, |j|, item, from, to, q, reference);
    assert es == es[..2] + [es[2]];
  }

  /** A successful transfer keeps the item's total over all locations, as
      long as neither leg wraps around. */
  lemma TransferPreservesTotal(db: Db, cfg: Config, env: Env, item: string, from: string, to: string, q: Int64, reference: string)
    requires Wf(db)
    requires Transfer(db, cfg, env, item, from, to, q, reference).err.None?
    requires Key(item, from) in db.stocks && InInt64(db.stocks[Key(item, from)].quantity - q)
    requires Key(item, to) in db.stocks ==> InInt64(db.stocks[Key(item, to)].quantity + q)
    ensures var r := Transfer(db, cfg, env, item, from, to, q, reference);
            QuantitySum(r.db.rows, r.db.stocks, item) == QuantitySum(db.rows, db.stocks, item)
  {
    TransferEffect(db, cfg, env, item, from, to, q, reference);
    MoveKeepsSum(db, env, item, from, to, q);
  }

  /** Debiting `q` at one location and crediting it at another keeps the
      item's total, as long as neither counter wraps around. */
  lemma MoveKeepsSum(db: Db, env: Env, item: string, from: string, to: string, q: Int64)
    requires Wf(db) && from != to
    requires Key(item, from) in db.stocks && InInt64(db.stocks[Key(item, from)].quantity - q)
    requires Key(item, to) in db.stocks ==> InInt64(db.stocks[Key(item, to)].quantity + q)
    ensures var d := Put(Put(db, Debited(db, env, Key(item, from), q)), Credited(db, env, Key(item, to), q));
            QuantitySum(d.rows, d.stocks, item) == QuantitySum(db.rows, db.stocks, item)
  {
    var src := Debited(db, env, Key(item, from), q);
    var dst := Credited(db, env, Key(item, to), q);
    assert Key(item, from) != Key(item, to);
    SumAfterPut(db, src, item);
    PutKeepsWf(db, src);
    SumAfterPut(Put(db, src), dst, item);
  }

  /** The steps of a transfer whose destination write is refused. */
  lemma RollbackSteps(db: Db, cfg: Config, env: Env, item: string, from: string, to: string, q: Int64, reference: string)
    requires from != to
    requires Remove(db, cfg, env, item, from, q, reference).err.None?
    requires to in db.locations
    requires Blocked(env, Key(item, to), NextVersion(db, Key(item, to)))
    ensures var out := Remove(db, cfg, env, item, from, q, reference);
            var into := Add(out.db, cfg, env, item, to, q, reference);
            && into.err == Some(WriteError(db, Key(item, to)))
            && Transfer(db, cfg, env, item, from, to, q, reference)
               == Outcome(Add(out.db, cfg, env, item, from, q, reference + "_ROLLBACK").db, into.err)
  {
    var out := Remove(db, cfg, env, item, from, q, reference);
    assert Key(item, from) != Key(item, to);
    assert Key(item, to) in out.db.stocks <==> Key(item, to) in db.stocks;
    assert NextVersion(out.db, Key(item, to)) == NextVersion(db, Key(item, to));
    TransferCompensated(db, cfg, env, item, from, to, q, reference);
  }

  /** Crediting `q` back to a record just debited by `q` restores its
      counters; its version has moved on by two. */
  lemma RestoredAfterDebit(db: Db, env: Env, k: Key, q: Int64, j: seq<Transaction>, a: seq<StockAlert>)
    requires k in db.stocks
    ensures var o := db.stocks[k];
            Credited(Put(db, Debited(db, env, k, q)).(journal := j, alerts := a), env, k, q)
            == Build(k, o.quantity, o.reserved, Wrap64(o.version + 2), env)
  {
    var o := db.stocks[k];
    Wrap64AddLeft(o.quantity - q, q);
    Wrap64AddLeft(o.version + 1, 1);
  }

  /** Adding `q` back to a state in which the record was just debited by
      `q` restores its counters, with its version moved on by two. */
  lemma CreditBack(db: Db, d: Db, cfg: Config, env: Env, item: string, loc: string, q: Int64, back: string,
                   j: seq<Transaction>, a: seq<StockAlert>)
    requires Key(item, loc) in db.stocks && item in db.items && loc in db.locations && q > 0
    requires d == Put(db, Debited(db, env, Key(item, loc), q)).(journal := j, alerts := a)
    requires !Blocked(env, Key(item, loc), Wrap64(db.stocks[Key(item, loc)].version + 2))
    ensures var o := db.stocks[Key(item, loc)];
            var r := Add(d, cfg, env, item, loc, q, back);
            && r.err.None?
            && r.db == Put(db, Build(Key(item, loc), o.quantity, o.reserved, Wrap64(o.version + 2), env))
                         .(journal := j + Logged(env, [Entry(|j|, env, Inbound, item, None, Some(loc), q, back)]), alerts := a)
  {
    var k := Key(item, loc);
    var o := db.stocks[k];
    var src := Debited(db, env, k, q);
    Wrap64AddLeft(o.version + 1, 1);
    assert NextVersion(d, k) == Wrap64(o.version + 2);
    AddState(d, cfg, env, item, loc, q, back);
    RestoredAfterDebit(db, env, k, q, j, a);
    var s2 := Build(k, o.quantity, o.reserved, Wrap64(o.version + 2), env);
    PutUnderLog(Put(db, src), s2, j, a);
    PutPut(db, src, s2);
  }

  /** Removing `q` and adding it back at the same place restores the
      record's counters, with its version moved on by two, and journals the
      outbound and the inbound entry. */
  lemma CompensationState(db: Db, cfg: Config, env: Env, item: string, loc: string, q: Int64, reference: string, back: string)
    requires Remove(db, cfg, env, item, loc, q, reference).err.None?
    requires !Blocked(env, Key(item, loc), Wrap64(db.stocks[Key(item, loc)].version + 2))
    ensures var o := db.stocks[Key(item, loc)];
            var r := Add(Remove(db, cfg, env, item, loc, q, reference).db, cfg, env, item, loc, q, back);
            && r.err.None?
            && r.db == Put(db, Build(Key(item, loc), o.quantity, o.reserved, Wrap64(o.version + 2), env))
                         .(journal := db.journal + Logged(env, [
                             Entry(|db.journal|, env, Outbound, item, Some(loc), None, q, reference),
                             Entry(|db.journal| + 1, env, Inbound, item, None, Some(loc), q, back)]),
                           alerts := db.alerts + Raised(db, cfg, env, item, loc, Wrap64(o.quantity - q)))
  {
    RemoveState(db, cfg, env, item, loc, q, reference);
    CreditBackLogged(db, Remove(db, cfg, env, item, loc, q, reference).db, cfg, env, item, loc, q, reference, back,
                     db.alerts + Raised(db, cfg, env, item, loc, Wrap64(db.stocks[Key(item, loc)].quantity - q)));
  }

  /** Adding `q` back to a state in which the record was just debited by
      `q` and the debit journalled journals both entries. */
  lemma CreditBackLogged(db: Db, d: Db, cfg: Config, env: Env, item: string, loc: string, q: Int64,
                         reference: string, back: string, a: seq<StockAlert>)
    requires Key(item, loc) in db.stocks && item in db.items && loc in db.locations && q > 0
    requires d == Put(db, Debited(db, env, Key(item, loc), q))
                   .(journal := db.journal + Logged(env, [Entry(|db.journal|, env, Outbound, item, Some(loc), None, q, reference)]),
                     alerts := a)
    requires !Blocked(env, Key(item, loc), Wrap64(db.stocks[Key(item, loc)].version + 2))
    ensures var o := db.stocks[Key(item, loc)];
            var r := Add(d, cfg, env, item, loc, q, back);
            && r.err.None?
            && r.db == Put(db, Build(Key(item, loc), o.quantity, o.reserved, Wrap64(o.version + 2), env))
                         .(journal := db.journal + Logged(env, [
                             Entry(|db.journal|, env, Outbound, item, Some(loc), None, q, reference),
                             Entry(|db.journal| + 1, env, Inbound, item, None, Some(loc), q, back)]),
                           alerts := a)
  {
    var j1 := d.journal;
    CreditBack(db, d, cfg, env, item, loc, q, back, j1, a);
    LogTwo(env, db.journal, Entry(|db.journal|, env, Outbound, item, Some(loc), None, q, reference),
           Entry(|j1|, env, Inbound, item, None, Some(loc), q, back),
           Entry(|db.journal| + 1, env, Inbound, item, None, Some(loc), q, back));
  }

  /** Two single journal writes in a row log both entries; the second
      entry's id is the position it lands at. */
  lemma LogTwo(env: Env, j: seq<Transaction>, e1: Transaction, e2: Transaction, e2': Transaction)
    requires env.journalUp ==> e2 == e2'
    ensures j + Logged(env, [e1]) + Logged(env, [e2]) == j + Logged(env, [e1, e2'])
  {
  }

  /** When the destination write fails, the compensating addition puts `q`
      back at the source (its version has moved on by two), no other record
      changes, the destination's error is returned, and the journal holds the
      outbound entry and the compensating inbound entry. */
  lemma TransferRollsBack(db: Db, cfg: Config, env: Env, item: string, from: string, to: string, q: Int64, reference: string)
    requires from != to
    requires Remove(db, cfg, env, item, from, q, reference).err.None?
    requires to in db.locations
    requires Blocked(env, Key(item, to), NextVersion(db, Key(item, to)))
    requires !Blocked(env, Key(item, from), Wrap64(db.stocks[Key(item, from)].version + 2))
    ensures var r := Transfer(db, cfg, env, item, from, to, q, reference);
            var o := db.stocks[Key(item, from)];
            && r.err == Some(WriteError(db, Key(item, to)))
            && r.db == Put(db, Build(Key(item, from), o.quantity, o.reserved, Wrap64(o.version + 2), env))
                         .(journal := db.journal + Logged(env, [
                             Entry(|db.journal|, env, Outbound, item, Some(from), None, q, reference),
                             Entry(|db.journal| + 1, env, Inbound, item, None, Some(from), q, reference + "_ROLLBACK")]),
                           alerts := db.alerts + Raised(db, cfg, env, item, from, Wrap64(o.quantity - q)))
  {
    RollbackSteps(db, cfg, env, item, from, to, q, reference);
    CompensationState(db, cfg, env, item, from, q, reference, reference + "_ROLLBACK");
  }

  /** When both the destination write and the compensation fail, the source
      stays debited: the transfer is not atomic. */
  lemma TransferRollbackFails(db: Db, cfg: Config, env: Env, item: string, from: string, to: string, q: Int64, reference: string)
    requires from != to
    requires Remove(db, cfg, env, item, from, q, reference).err.None?
    requires to in db.locations
    requires Blocked(env, Key(item, to), NextVersion(db, Key(item, to)))
    requires Blocked(env, Key(item, from), Wrap64(db.stocks[Key(item, from)].version + 2))
    ensures var r := Transfer(db, cfg, env, item, from, to, q, reference);
            && r.err == Some(WriteError(db, Key(item, to)))
            && r.db == Remove(db, cfg, env, item, from, q, reference).db
  {
    RollbackSteps(db, cfg, env, item, from, to, q, reference);
    CompensationRefused(db, cfg, env, item, from, q, reference, reference + "_ROLLBACK");
  }

  /** A compensating addition whose write is refused leaves the debited
      state as it is. */
  lemma CompensationRefused(db: Db, cfg: Config, env: Env, item: string, loc: string, q: Int64, reference: string, back: string)
    requires Remove(db, cfg, env, item, loc, q, reference).err.None?
    requires Blocked(env, Key(item, loc), Wrap64(db.stocks[Key(item, loc)].version + 2))
    ensures var out := Remove(db, cfg, env, item, loc, q, reference).db;
            Add(out, cfg, env, item, loc, q, back).db == out
  {
    RemoveState(db, cfg, env, item, loc, q, reference);
    AddBlockedAfterDebit(db, Remove(db, cfg, env, item, loc, q, reference).db, cfg, env, item, loc, q, back,
                         db.journal + Logged(env, [Entry(|db.journal|, env, Outbound, item, Some(loc), None, q, reference)]),
                         db.alerts + Raised(db, cfg, env, item, loc, Wrap64(db.stocks[Key(item, loc)].quantity - q)));
  }

  /** Adding to a record just debited is refused, leaving the state as it
      is, when the database rejects the record's version after next. */
  lemma AddBlockedAfterDebit(db: Db, d: Db, cfg: Config, env: Env, item: string, loc: string, q: Int64, back: string,
                             j: seq<Transaction>, a: seq<StockAlert>)
    requires Key(item, loc) in db.stocks
    requires d == Put(db, Debited(db, env, Key(item, loc), q)).(journal := j, alerts := a)
    requires Blocked(env, Key(item, loc), Wrap64(db.stocks[Key(item, loc)].version + 2))
    ensures Add(d, cfg, env, item, loc, q, back).db == d
  {
    var k := Key(item, loc);
    var v: int := db.stocks[k].version;
    Wrap64AddLeft(v + 1, 1);
    assert NextVersion(d, k) == Wrap64(v + 2);
    AddBlocked(d, cfg, env, item, loc, q, back);
  }

  /** An addition whose write the database rejects changes nothing. */
  lemma AddBlocked(db: Db, cfg: Config, env: Env, item: string, loc: string, q: Int64, reference: string)
    requires Blocked(env, Key(item, loc), NextVersion(db, Key(item, loc)))
    ensures Add(db, cfg, env, item, loc, q, reference).db == db
  {
  }

  // ---------------------------------------------------------------------
  // Invariants of every mutation
  // ---------------------------------------------------------------------

  /** Add, successful or not, keeps the table well formed and every
      `available` derived, and only appends to the journal. */
  lemma AddKeepsInvariants(db: Db, cfg: Config, env: Env, item: string, loc: string, q: Int64, reference: string)
    requires Wf(db) && AllDerived(db)
    ensures var r := Add(db, cfg, env, item, loc, q, reference); Wf(r.db) && AllDerived(r.db) && Appends(db, r.db)
  {
    var r := Add(db, cfg, env, item, loc, q, reference);
    if r.err.None? {
      var s := r.db.stocks[Key(item, loc)];
      PutKeepsWf(db, s);
      PutKeepsDerived(db, s);
    }
  }

  /** Remove keeps the same invariants; it may append an alert. */
  lemma RemoveKeepsInvariants(db: Db, cfg: Config, env: Env, item: string, loc: string, q: Int64, reference: string)
    requires Wf(db) && AllDerived(db)
    ensures var r := Remove(db, cfg, env, item, loc, q, reference); Wf(r.db) && AllDerived(r.db) && Appends(db, r.db)
  {
    var r := Remove(db, cfg, env, item, loc, q, reference);
    if r.err.None? {
      var s := r.db.stocks[Key(item, loc)];
      PutKeepsWf(db, s);
      PutKeepsDerived(db, s);
    }
  }

  /** Adjust keeps the same invariants. */
  lemma AdjustKeepsInvariants(db: Db, cfg: Config, env: Env, item: string, loc: string, n: Int64, reference: string)
    requires Wf(db) && AllDerived(db)
    ensures var r := Adjust(db, cfg, env, item, loc, n, reference); Wf(r.db) && AllDerived(r.db) && Appends(db, r.db)
  {
    var r := Adjust(db, cfg, env, item, loc, n, reference);
    if r.err.None? {
      var s := r.db.stocks[Key(item, loc)];
      PutKeepsWf(db, s);
      PutKeepsDerived(db, s);
    }
  }

  /** Reserve keeps the same invariants and writes neither journal nor
      alerts. */
  lemma ReserveKeepsInvariants(db: Db, env: Env, item: string, loc: string, q: Int64, reference: string)
    requires Wf(db) && AllDerived(db)
    ensures var r := Reserve(db, env, item, loc, q, reference);
            Wf(r.db) && AllDerived(r.db) && r.db.journal == db.journal && r.db.alerts == db.alerts
  {
    var r := Reserve(db, env, item, loc, q, reference);
    if r.err.None? {
      var s := r.db.stocks[Key(item, loc)];
      PutKeepsWf(db, s);
      PutKeepsDerived(db, s);
    }
  }

  /** ReleaseReservation keeps the same invariants and writes neither
      journal nor alerts. */
  lemma ReleaseKeepsInvariants(db: Db, env: Env, item: string, loc: string, q: Int64, reference: string)
    requires Wf(db) && AllDerived(db)
    ensures var r := ReleaseReservation(db, env, item, loc, q, reference);
            Wf(r.db) && AllDerived(r.db) && r.db.journal == db.journal && r.db.alerts == db.alerts
  {
    var r := ReleaseReservation(db, env, item, loc, q, reference);
    if r.err.None? {
      var s := r.db.stocks[Key(item, loc)];
      PutKeepsWf(db, s);
      PutKeepsDerived(db, s);
    }
  }

  /** A transfer, whatever its outcome, keeps the same invariants. */
  lemma TransferKeepsInvariants(db: Db, cfg: Config, env: Env, item: string, from: string, to: string, q: Int64, reference: string)
    requires Wf(db) && AllDerived(db)
    ensures var r := Transfer(db, cfg, env, item, from, to, q, reference); Wf(r.db) && AllDerived(r.db) && Appends(db, r.db)
  {
    if Transfer(db, cfg, env, item, from, to, q, reference).err.None? {
      TransferredKeepsInvariants(db, cfg, env, item, from, to, q, reference);
    } else if q > 0 && from != to && to in db.locations && Remove(db, cfg, env, item, from, q, reference).err.None? {
      var out := Remove(db, cfg, env, item, from, q, reference);
      RemoveKeepsInvariants(db, cfg, env, item, from, q, reference);
      if Add(out.db, cfg, env, item, to, q, reference).err.Some? {
        CompensatedKeepsInvariants(db, cfg, env, item, from, to, q, reference);
      } else {
        TransferNotCompensated(db, cfg, env, item, from, to, q, reference);
      }
    }
  }

  /** A transfer whose debit and credit both succeed succeeds. */
  lemma TransferNotCompensated(db: Db, cfg: Config, env: Env, item: string, from: string, to: string, q: Int64, reference: string)
    requires q > 0 && from != to && to in db.locations
    requires Remove(db, cfg, env, item, from, q, reference).err.None?
    requires Add(Remove(db, cfg, env, item, from, q, reference).db, cfg, env, item, to, q, reference).err.None?
    ensures Transfer(db, cfg, env, item, from, to, q, reference).err.None?
  {
  }

  /** The success path keeps the invariants. */
  lemma TransferredKeepsInvariants(db: Db, cfg: Config, env: Env, item: string, from: string, to: string, q: Int64, reference: string)
    requires Wf(db) && AllDerived(db)
    requires Transfer(db, cfg, env, item, from, to, q, reference).err.None?
    ensures var r := Transfer(db, cfg, env, item, from, to, q, reference); Wf(r.db) && AllDerived(r.db) && Appends(db, r.db)
  {
    TransferSucceeded(db, cfg, env, item, from, to, q, reference);
    var out := Remove(db, cfg, env, item, from, q, reference).db;
    var into := Add(out, cfg, env, item, to, q, reference).db;
    RemoveKeepsInvariants(db, cfg, env, item, from, q, reference);
    AddKeepsInvariants(out, cfg, env, item, to, q, reference);
    var tx := Entry(|into.journal|, env, TransferKind, item, Some(from), Some(to), q, reference);
    RecordKeepsInvariants(into, env, tx);
    AppendsTransitive(db, out, into);
    AppendsTransitive(db, into, Record(into, env, tx));
  }

  /** Journalling keeps the invariants and only appends. */
  lemma RecordKeepsInvariants(d: Db, env: Env, tx: Transaction)
    requires Wf(d) && AllDerived(d)
    ensures Wf(Record(d, env, tx)) && AllDerived(Record(d, env, tx)) && Appends(d, Record(d, env, tx))
  {
  }

  lemma AppendsTransitive(a: Db, b: Db, c: Db)
    requires Appends(a, b) && Appends(b, c)
    ensures Appends(a, c)
  {
  }

  /** The compensation path keeps the invariants. */
  lemma CompensatedKeepsInvariants(db: Db, cfg: Config, env: Env, item: string, from: string, to: string, q: Int64, reference: string)
    requires from != to && to in db.locations
    requires Remove(db, cfg, env, item, from, q, reference).err.None?
    requires Add(Remove(db, cfg, env, item, from, q, reference).db, cfg, env, item, to, q, reference).err.Some?
    requires var d := Remove(db, cfg, env, item, from, q, reference).db; Wf(d) && AllDerived(d) && Appends(db, d)
    ensures var r := Transfer(db, cfg, env, item, from, to, q, reference); Wf(r.db) && AllDerived(r.db) && Appends(db, r.db)
  {
    var out := Remove(db, cfg, env, item, from, q, reference);
    TransferCompensated(db, cfg, env, item, from, to, q, reference);
    AddKeepsInvariants(out.db, cfg, env, item, from, q, reference + "_ROLLBACK");
  }
}
