/**
 * The batch pipeline as a specification: `Step` is what handling one record
 * does to the session and the accumulated report, `Run` is the whole batch in
 * input order, before the final commit or rollback.
 */
module Ingestion {
  import opened Wrappers
  import opened Uuids
  import opened Records
  import opened Catalog
  import opened Dedup
  import opened Ledger

  /** The session state and the three accumulated outputs after some records. */
  datatype Progress = Progress(store: Store, inserted: nat, accepted: seq<string>, conflicts: seq<Conflict>)

  function Start(st: Store): Progress {
    Progress(st, 0, [], [])
  }

  /** The product a record resolves to against the catalog of `st`. */
  function ResolveIn(st: Store, item: Intake): Option<Uuid> {
    Resolve(st.products.Keys, st.byCode, item)
  }

  /** The conflict entry for a record whose product is not found. */
  function NotFound(item: Intake): Conflict {
    ProdutoNaoEncontrado(item.produtoId, item.produtoCodigo)
  }

  /**
   * Handling one record: resolve, then (when timestamped) look for a
   * duplicate, then either skip or write.
   */
  function Step(acc: Progress, item: Intake, now: Timestamp): (next: Progress)
    // the catalog's ids and codes never change
    ensures next.store.products.Keys == acc.store.products.Keys && next.store.byCode == acc.store.byCode
    // at most one row is written, and nothing changes when none is
    ensures next.inserted == acc.inserted || next.inserted == acc.inserted + 1
    ensures next.inserted == acc.inserted ==> next.store == acc.store
    ensures next.inserted == acc.inserted + 1 ==>
              ResolveIn(acc.store, item).Some? &&
              next.store == Write(acc.store, ResolveIn(acc.store, item).value, UserOf(item), item, now)
    // accepted exactly when resolved, whether written or a duplicate
    ensures next.accepted == acc.accepted + (if ResolveIn(acc.store, item).Some? then Token(item) else [])
    ensures next.conflicts == acc.conflicts + (if ResolveIn(acc.store, item).None? then [NotFound(item)] else [])
    // a record without a timestamp is never taken for a duplicate
    ensures ResolveIn(acc.store, item).Some? && item.createdAt.None? ==> next.inserted == acc.inserted + 1
    // a timestamped record is written exactly when no ledger row matches its key
    ensures ResolveIn(acc.store, item).Some? && item.createdAt.Some? ==>
              (next.inserted == acc.inserted + 1 <==>
               !HasMatch(acc.store.ledger, KeyOf(ResolveIn(acc.store, item).value, UserOf(item), item)))
  {
    match ResolveIn(acc.store, item)
    case None =>
      acc.(conflicts := acc.conflicts + [NotFound(item)])
    case Some(pid) =>
      var user := UserOf(item);
      if item.createdAt.Some? && FindDuplicate(acc.store.ledger, KeyOf(pid, user, item)).Some? then
        acc.(accepted := acc.accepted + Token(item))
      else
        acc.(store := Write(acc.store, pid, user, item, now),
             inserted := acc.inserted + 1,
             accepted := acc.accepted + Token(item))
  }

  /**
   * The whole batch, record by record in input order, from session state
   * `st`; `now` is the ingestion instant.
   */
  function Run(st: Store, items: seq<Intake>, now: Timestamp): (r: Progress)
    // the ledger is append-only and grows by exactly `inserted` rows
    ensures |r.store.ledger| == |st.ledger| + r.inserted
    ensures r.store.ledger[..|st.ledger|] == st.ledger
    ensures r.store.products.Keys == st.products.Keys && r.store.byCode == st.byCode
    // a batch that inserts nothing leaves the session as it was
    ensures r.inserted == 0 ==> r.store == st
    decreases |items|
  {
    if items == [] then Start(st)
    else Step(Run(st, items[..|items| - 1], now), items[|items| - 1], now)
  }
}
