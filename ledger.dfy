/**
 * The ledger writer: a new row for a record, and the stock increment and
 * freshness bump of its product, applied together.
 */
module Ledger {
  import opened Wrappers
  import opened Uuids
  import opened Records
  import opened Dedup

  /**
   * The row written for a record resolved to `pid`. Without a claimed
   * timestamp the row gets the ingestion instant `now`.
   */
  function NewRow(pid: Uuid, user: Option<Uuid>, item: Intake, now: Timestamp): (row: Row)
    ensures row.total == item.quantidade * item.custoUnitario
    ensures row.totalCusto == (if item.totalCusto.Some? then item.totalCusto.value else row.total)
    ensures row.createdAt == (if item.createdAt.Some? then item.createdAt.value else now)
    ensures item.createdAt.Some? ==> Matches(row, KeyOf(pid, user, item))
  {
    Row(pid, user, item.quantidade, item.custoUnitario,
        item.quantidade * item.custoUnitario, TotalCustoOf(item), item.observacao,
        if item.createdAt.Some? then item.createdAt.value else now)
  }

  /** The product after an intake of `qty`: `estoque` raised, `updated_at` set to `now`. */
  function Restock(p: Product, qty: real, now: Timestamp): Product {
    Product(Some(StockOf(p) + qty), Some(now))
  }

  /** Applying one record: append its row and restock its product, nothing else. */
  function Write(st: Store, pid: Uuid, user: Option<Uuid>, item: Intake, now: Timestamp): (st': Store)
    requires pid in st.products
    ensures st'.ledger == st.ledger + [NewRow(pid, user, item, now)]
    ensures st'.products.Keys == st.products.Keys && st'.byCode == st.byCode
    ensures StockOf(st'.products[pid]) == StockOf(st.products[pid]) + item.quantidade
    ensures st'.products[pid].updatedAt == Some(now)
    ensures forall p :: p in st.products && p != pid ==> st'.products[p] == st.products[p]
  {
    st.(ledger := st.ledger + [NewRow(pid, user, item, now)],
        products := st.products[pid := Restock(st.products[pid], item.quantidade, now)])
  }

  /** The sum of the quantities of the rows for product `pid`. */
  function QtyFor(rows: seq<Row>, pid: Uuid): real {
    if rows == [] then 0.0
    else QtyFor(rows[..|rows| - 1], pid) + (if rows[|rows| - 1].produtoId == pid then rows[|rows| - 1].quantidade else 0.0)
  }

  /** Some row is for product `pid`. */
  ghost predicate Touches(rows: seq<Row>, pid: Uuid) {
    exists r :: r in rows && r.produtoId == pid
  }

  lemma {:induction false} QtyForAppend(a: seq<Row>, b: seq<Row>, pid: Uuid)
    ensures QtyFor(a + b, pid) == QtyFor(a, pid) + QtyFor(b, pid)
    decreases |b|
  {
    if b == [] {
      assert a + b == a;
    } else {
      assert (a + b)[..|a + b| - 1] == a + b[..|b| - 1];
      QtyForAppend(a, b[..|b| - 1], pid);
    }
  }
}
