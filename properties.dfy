/**
 * What a batch as a whole guarantees: the report it returns, stock
 * conservation, where every new ledger row comes from, and idempotent
 * resubmission of timestamped records.
 */
module Properties {
  import opened Wrappers
  import opened Uuids
  import opened Records
  import opened Catalog
  import opened Dedup
  import opened Ledger
  import opened Ingestion

  /** Reference for `accepted`: the tokens of the records that resolve, in input order. */
  function AcceptedTokens(ids: set<Uuid>, byCode: map<string, Uuid>, items: seq<Intake>): seq<string> {
    if items == [] then []
    else
      var last := items[|items| - 1];
      AcceptedTokens(ids, byCode, items[..|items| - 1]) + (if Resolve(ids, byCode, last).Some? then Token(last) else [])
  }

  /** Reference for `conflicts`: one entry per record that does not resolve, in input order. */
  function Unresolved(ids: set<Uuid>, byCode: map<string, Uuid>, items: seq<Intake>): seq<Conflict> {
    if items == [] then []
    else
      var last := items[|items| - 1];
      Unresolved(ids, byCode, items[..|items| - 1]) + (if Resolve(ids, byCode, last).None? then [NotFound(last)] else [])
  }

  /**
   * The report's lists depend only on which records resolve against the
   * catalog at the start: duplicates are accepted like newly written records.
   */
  lemma {:induction false} RunReport(st: Store, items: seq<Intake>, now: Timestamp)
    ensures Run(st, items, now).accepted == AcceptedTokens(st.products.Keys, st.byCode, items)
    ensures Run(st, items, now).conflicts == Unresolved(st.products.Keys, st.byCode, items)
    decreases |items|
  {
    if items != [] {
      RunReport(st, items[..|items| - 1], now);
    }
  }

  /** Without timestamps every resolved record is inserted: no false-positive duplicates. */
  lemma {:induction false} UntimestampedAllInserted(st: Store, items: seq<Intake>, now: Timestamp)
    requires forall i :: 0 <= i < |items| ==> items[i].createdAt.None?
    ensures Run(st, items, now).inserted + |Run(st, items, now).conflicts| == |items|
    decreases |items|
  {
    if items != [] {
      UntimestampedAllInserted(st, items[..|items| - 1], now);
    }
  }

  /** The rows a batch appended to the ledger of `st`. */
  function NewRows(st: Store, items: seq<Intake>, now: Timestamp): seq<Row> {
    Run(st, items, now).store.ledger[|st.ledger|..]
  }

  /**
   * Stock conservation from `st` to `st'`, whose ledger extends that of `st`:
   * each product's stock rises by exactly the quantities of its new rows; a
   * product without new rows is untouched, one with new rows has
   * `updated_at` set to `now`.
   */
  ghost predicate StockFollowsLedger(st: Store, st': Store, now: Timestamp)
    requires |st.ledger| <= |st'.ledger|
  {
    forall p :: p in st.products ==>
      && p in st'.products
      && StockOf(st'.products[p]) == StockOf(st.products[p]) + QtyFor(st'.ledger[|st.ledger|..], p)
      && (!Touches(st'.ledger[|st.ledger|..], p) ==> st'.products[p] == st.products[p])
      && (Touches(st'.ledger[|st.ledger|..], p) ==> st'.products[p].updatedAt == Some(now))
  }

  /** One record keeps stock in step with the rows it appends. */
  lemma StepStock(acc: Progress, item: Intake, now: Timestamp)
    ensures StockFollowsLedger(acc.store, Step(acc, item, now).store, now)
  {
    var next := Step(acc, item, now);
    var st, st' := acc.store, next.store;
    if next.inserted == acc.inserted + 1 {
      var pid := ResolveIn(st, item).value;
      var row := NewRow(pid, UserOf(item), item, now);
      assert st'.ledger[|st.ledger|..] == [row];
      assert [row][..0] == [];
      forall p | p in st.products
        ensures Touches([row], p) <==> p == pid
      {
        assert row in [row];
      }
    } else {
      assert st'.ledger[|st.ledger|..] == [];
    }
  }

  /** Stock conservation composes along an extending ledger. */
  lemma StockChain(a: Store, b: Store, c: Store, now: Timestamp)
    requires |a.ledger| <= |b.ledger| <= |c.ledger|
    requires b.ledger[..|a.ledger|] == a.ledger && c.ledger[..|b.ledger|] == b.ledger
    requires StockFollowsLedger(a, b, now) && StockFollowsLedger(b, c, now)
    ensures StockFollowsLedger(a, c, now)
  {
    var ab, bc, ac := b.ledger[|a.ledger|..], c.ledger[|b.ledger|..], c.ledger[|a.ledger|..];
    assert ac == ab + bc;
    forall p | p in a.products
      ensures QtyFor(ac, p) == QtyFor(ab, p) + QtyFor(bc, p)
      ensures Touches(ac, p) <==> Touches(ab, p) || Touches(bc, p)
    {
      QtyForAppend(ab, bc, p);
    }
  }

  /**
   * Stock conservation over a batch: stock rises by exactly the quantities
   * of the new rows of each product; duplicates and conflicts add nothing.
   */
  lemma {:induction false} RunStock(st: Store, items: seq<Intake>, now: Timestamp)
    ensures StockFollowsLedger(st, Run(st, items, now).store, now)
    decreases |items|
  {
    if items == [] {
      assert Run(st, items, now).store.ledger[|st.ledger|..] == [];
    } else {
      var init, last := items[..|items| - 1], items[|items| - 1];
      var before := Run(st, init, now);
      RunStock(st, init, now);
      StepStock(before, last, now);
      StockChain(st, before.store, Run(st, items, now).store, now);
    }
  }

  /** A row was written for `item`: it resolves to the row's product and the row is its `NewRow`. */
  predicate WrittenFor(row: Row, item: Intake, ids: set<Uuid>, byCode: map<string, Uuid>, now: Timestamp) {
    Resolve(ids, byCode, item) == Some(row.produtoId) && row == NewRow(row.produtoId, UserOf(item), item, now)
  }

  /** Every appended row was written for some record of the batch. */
  lemma {:induction false} RunRowProvenance(st: Store, items: seq<Intake>, now: Timestamp)
    ensures forall row :: row in NewRows(st, items, now) ==>
              exists i :: 0 <= i < |items| && WrittenFor(row, items[i], st.products.Keys, st.byCode, now)
    decreases |items|
  {
    if items != [] {
      var init, last := items[..|items| - 1], items[|items| - 1];
      RunRowProvenance(st, init, now);
      var before, after := Run(st, init, now), Run(st, items, now);
      var added, added' := NewRows(st, init, now), NewRows(st, items, now);
      forall row | row in added'
        ensures exists i :: 0 <= i < |items| && WrittenFor(row, items[i], st.products.Keys, st.byCode, now)
      {
        if row in added {
          var i :| 0 <= i < |init| && WrittenFor(row, init[i], st.products.Keys, st.byCode, now);
          assert items[i] == init[i];
        } else {
          assert after.inserted == before.inserted + 1 && added' == added + [row];
          assert WrittenFor(row, items[|items| - 1], st.products.Keys, st.byCode, now);
        }
      }
    }
  }

  /** The ledger holds a row matching the key of `item`, if the item is timestamped and resolves. */
  ghost predicate Recorded(ledger: seq<Row>, ids: set<Uuid>, byCode: map<string, Uuid>, item: Intake) {
    item.createdAt.Some? && Resolve(ids, byCode, item).Some? ==>
      HasMatch(ledger, KeyOf(Resolve(ids, byCode, item).value, UserOf(item), item))
  }

  /**
   * After a batch, every timestamped record of it that resolves has a
   * matching row: either it was written, or its duplicate was already
   * there (possibly written earlier in the same batch).
   */
  lemma {:induction false} RunCoversBatch(st: Store, items: seq<Intake>, now: Timestamp)
    ensures forall i :: 0 <= i < |items| ==>
              Recorded(Run(st, items, now).store.ledger, st.products.Keys, st.byCode, items[i])
    decreases |items|
  {
    if items != [] {
      var init, last := items[..|items| - 1], items[|items| - 1];
      RunCoversBatch(st, init, now);
      var before, after := Run(st, init, now), Run(st, items, now);
      var ids, byCode := st.products.Keys, st.byCode;
      forall i | 0 <= i < |items|
        ensures Recorded(after.store.ledger, ids, byCode, items[i])
      {
        var item := items[i];
        if item.createdAt.Some? && Resolve(ids, byCode, item).Some? {
          var key := KeyOf(Resolve(ids, byCode, item).value, UserOf(item), item);
          if i < |init| {
            assert item == init[i];
            HasMatchExtends(before.store.ledger, after.store.ledger, key);
          } else if after.inserted == before.inserted + 1 {
            var row := after.store.ledger[|before.store.ledger|];
            assert Matches(row, key);
          }
        }
      }
    }
  }

  /** A batch whose timestamped records are all already recorded inserts nothing. */
  lemma {:induction false} RecordedBatchInsertsNothing(st: Store, items: seq<Intake>, now: Timestamp)
    requires forall i :: 0 <= i < |items| ==> items[i].createdAt.Some?
    requires forall i :: 0 <= i < |items| ==> Recorded(st.ledger, st.products.Keys, st.byCode, items[i])
    ensures Run(st, items, now).inserted == 0
    decreases |items|
  {
    if items != [] {
      var init := items[..|items| - 1];
      assert forall i :: 0 <= i < |init| ==> init[i] == items[i];
      RecordedBatchInsertsNothing(st, init, now);
      assert Recorded(st.ledger, st.products.Keys, st.byCode, items[|items| - 1]);
    }
  }

  /**
   * Idempotent resubmission: sending the same all-timestamped batch again
   * (at any later instant) inserts nothing, changes nothing, and reports the
   * same accepted tokens and conflicts as the first submission.
   */
  lemma {:induction false} ResubmitIsIdempotent(st: Store, items: seq<Intake>, now: Timestamp, later: Timestamp)
    requires forall i :: 0 <= i < |items| ==> items[i].createdAt.Some?
    ensures Run(Run(st, items, now).store, items, later).inserted == 0
    ensures Run(Run(st, items, now).store, items, later).store == Run(st, items, now).store
    ensures Run(Run(st, items, now).store, items, later).accepted == Run(st, items, now).accepted
    ensures Run(Run(st, items, now).store, items, later).conflicts == Run(st, items, now).conflicts
  {
    var first := Run(st, items, now);
    RunCoversBatch(st, items, now);
    RecordedBatchInsertsNothing(first.store, items, later);
    RunReport(st, items, now);
    RunReport(first.store, items, later);
  }

  /**
   * Two identical timestamped records in one batch: the second sees the row
   * the first wrote, so at most one row and one stock increment result.
   */
  lemma SameBatchDuplicate(st: Store, x: Intake, now: Timestamp)
    requires x.createdAt.Some? && ResolveIn(st, x).Some?
    ensures var pid := ResolveIn(st, x).value;
            var isNew := !HasMatch(st.ledger, KeyOf(pid, UserOf(x), x));
            var r := Run(st, [x, x], now);
            && r.inserted == (if isNew then 1 else 0)
            && |r.store.ledger| == |st.ledger| + r.inserted
            && StockOf(r.store.products[pid]) == StockOf(st.products[pid]) + (if isNew then x.quantidade else 0.0)
            && r.accepted == Token(x) + Token(x)
  {
    var pid := ResolveIn(st, x).value;
    var key := KeyOf(pid, UserOf(x), x);
    assert [x, x][..1] == [x];
    assert [x][..0] == [];
    var one := Step(Start(st), x, now);
    var two := Step(one, x, now);
    assert Run(st, [x], now) == one;
    assert Run(st, [x, x], now) == two;
    assert ResolveIn(one.store, x) == Some(pid);
    if HasMatch(st.ledger, key) {
      assert one.store == st;
      assert two.store == st;
    } else {
      var row := NewRow(pid, UserOf(x), x, now);
      assert one.store.ledger == st.ledger + [row];
      assert one.store.ledger[|st.ledger|] == row;
      assert HasMatch(one.store.ledger, key);
      assert two.store == one.store;
    }
  }

  /** The ledger-stock invariant: each product's stock is a base amount plus its rows' quantities. */
  ghost predicate Balanced(st: Store, base: map<Uuid, real>) {
    forall p :: p in st.products ==> p in base && StockOf(st.products[p]) == base[p] + QtyFor(st.ledger, p)
  }

  /** Every batch keeps stock and ledger in balance. */
  lemma {:induction false} RunKeepsBalance(st: Store, items: seq<Intake>, now: Timestamp, base: map<Uuid, real>)
    requires Balanced(st, base)
    ensures Balanced(Run(st, items, now).store, base)
  {
    var r := Run(st, items, now);
    var added := r.store.ledger[|st.ledger|..];
    RunStock(st, items, now);
    assert r.store.ledger == st.ledger + added;
    forall p | p in st.products {
      QtyForAppend(st.ledger, added, p);
    }
  }
}
