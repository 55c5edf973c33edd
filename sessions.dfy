/**
 * The storage session of one request and the bulk endpoint that drives it.
 * The session holds the live catalog and ledger and the last committed state,
 * to which a rollback returns.
 */
module Sessions {
  import opened Wrappers
  import opened Uuids
  import opened Records
  import opened Catalog
  import opened Dedup
  import opened Ledger
  import opened Ingestion

  class Session {
    var products: map<Uuid, Product>
    var byCode: map<string, Uuid>
    var ledger: seq<Row>
    /** The durable state: what a rollback restores. */
    var committed: Store

    /** The session's current (possibly uncommitted) view. */
    function State(): Store
      reads this
    {
      Store(products, byCode, ledger)
    }

    /** A new session over durable state, with nothing pending. */
    constructor (durable: Store)
      ensures State() == durable && committed == durable
    {
      products, byCode, ledger := durable.products, durable.byCode, durable.ledger;
      committed := durable;
    }

    /** Make the current state durable. */
    method Commit()
      modifies this
      ensures State() == old(State()) && committed == State()
    {
      committed := State();
    }

    /** Discard everything since the last commit. */
    method Rollback()
      modifies this
      ensures State() == old(committed) && committed == old(committed)
    {
      products, byCode, ledger := committed.products, committed.byCode, committed.ledger;
    }

    /**
     * `POST /bulk`: handle the records in order, then commit if anything
     * was inserted and roll back otherwise.
     */
    method BulkCreate(payload: BulkIn, now: Timestamp) returns (report: Report)
      modifies this
      ensures report.inserted == Run(old(State()), payload.items, now).inserted
      ensures report.accepted == Run(old(State()), payload.items, now).accepted
      ensures report.conflicts == Run(old(State()), payload.items, now).conflicts
      ensures report.inserted > 0 ==> State() == Run(old(State()), payload.items, now).store && committed == State()
      ensures report.inserted == 0 ==> State() == old(committed) && committed == old(committed)
    {
      var items := payload.items;
      ghost var start := State();
      var inserted: nat := 0;
      var accepted: seq<string> := [];
      var conflicts: seq<Conflict> := [];
      for i := 0 to |items|
        invariant Run(start, items[..i], now) == Progress(State(), inserted, accepted, conflicts)
        invariant committed == old(committed)
      {
        var item := items[i];
        ghost var acc := Progress(State(), inserted, accepted, conflicts);
        assert items[..i + 1][..i] == items[..i];
        assert Run(start, items[..i + 1], now) == Step(acc, item, now);
        var found := Resolve(products.Keys, byCode, item);
        if found.None? {
          conflicts := conflicts + [ProdutoNaoEncontrado(item.produtoId, item.produtoCodigo)];
        } else {
          var pid := found.value;
          var user := UserOf(item);
          var duplicate := item.createdAt.Some? && FindDuplicate(ledger, KeyOf(pid, user, item)).Some?;
          if !duplicate {
            ledger := ledger + [NewRow(pid, user, item, now)];
            products := products[pid := Restock(products[pid], item.quantidade, now)];
            inserted := inserted + 1;
          }
          accepted := accepted + Token(item);
        }
        assert Progress(State(), inserted, accepted, conflicts) == Step(acc, item, now);
      }
      assert items[..|items|] == items;
      if inserted > 0 {
        Commit();
      } else {
        Rollback();
      }
      report := Report(inserted, accepted, conflicts);
    }
  }
}
