/**
 * The values the bulk stock-intake endpoint works on: the incoming records
 * (`AbastecimentoIn`, `AbastecimentoBulkIn`), the catalog products it
 * restocks, the ledger rows (`Abastecimento`) it appends, and the report it
 * returns.
 */
module Records {
  import opened Wrappers
  import opened Uuids

  /** An instant (a `datetime`); only equality between instants matters here. */
  type Timestamp = int

  /** One incoming stock-intake record, field for field as the terminal sends it. */
  datatype Intake = Intake(
    localId: Option<string>,
    produtoId: Option<string>,
    produtoCodigo: Option<string>,
    usuarioId: Option<string>,
    quantidade: real,
    custoUnitario: real,
    totalCusto: Option<real>,
    observacao: Option<string>,
    createdAt: Option<Timestamp>)

  /** The request body: the records in submission order. */
  datatype BulkIn = BulkIn(items: seq<Intake>)

  /** Python truthiness of an optional string: neither `None` nor empty. */
  predicate Present(s: Option<string>) {
    s.Some? && s.value != ""
  }

  /** The part of a catalog product the endpoint touches; `estoque` is a nullable column. */
  datatype Product = Product(estoque: Option<real>, updatedAt: Option<Timestamp>)

  /** The stock a product is read as holding: a null `estoque` counts as zero. */
  function StockOf(p: Product): real {
    if p.estoque.Some? then p.estoque.value else 0.0
  }

  /** One applied stock-intake event in the ledger. */
  datatype Row = Row(
    produtoId: Uuid,
    usuarioId: Option<Uuid>,
    quantidade: real,
    custoUnitario: real,
    total: real,
    totalCusto: real,
    observacao: Option<string>,
    createdAt: Timestamp)

  /**
   * What the storage session holds: the catalog (products by id, and the
   * unique product code index) and the ledger of applied events.
   */
  datatype Store = Store(products: map<Uuid, Product>, byCode: map<string, Uuid>, ledger: seq<Row>)

  /** A per-record conflict entry: `produto_nao_encontrado` with the submitted references. */
  datatype Conflict = ProdutoNaoEncontrado(produtoId: Option<string>, produtoCodigo: Option<string>)

  /** The endpoint's response: `inserted`, `accepted`, `conflicts`. */
  datatype Report = Report(inserted: nat, accepted: seq<string>, conflicts: seq<Conflict>)

  /** The cost total of a record: the supplied `total_custo`, or quantity times unit cost. */
  function TotalCustoOf(item: Intake): real {
    if item.totalCusto.Some? then item.totalCusto.value else item.quantidade * item.custoUnitario
  }

  /** What a handled record adds to `accepted`: its `local_id` unless that is `None`. */
  function Token(item: Intake): seq<string> {
    if item.localId.Some? then [item.localId.value] else []
  }
}
