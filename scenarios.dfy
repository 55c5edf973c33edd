/** Worked batches: the default cost total, and a bad record in the middle of a batch. */
module Scenarios {
  import opened Wrappers
  import opened Uuids
  import opened Records
  import opened Catalog
  import opened Ledger
  import opened Ingestion

  function Intake1(local: string, code: string, qty: real, cost: real): Intake {
    Intake(Some(local), None, Some(code), None, qty, cost, None, None, None)
  }

  /** One product, code "SKU1", 5 in stock, empty ledger. */
  function Shop(): Store {
    Store(map[Uuid(1) := Product(Some(5.0), None)], map["SKU1" := Uuid(1)], [])
  }

  /** 10 units at 2.5 with no total: the row's `total_custo` is 25.0 and the stock becomes 15. */
  lemma DefaultTotalExample(now: Timestamp)
    ensures Run(Shop(), [Intake1("a", "SKU1", 10.0, 2.5)], now).inserted == 1
    ensures Run(Shop(), [Intake1("a", "SKU1", 10.0, 2.5)], now).store.ledger[0].totalCusto == 25.0
    ensures StockOf(Run(Shop(), [Intake1("a", "SKU1", 10.0, 2.5)], now).store.products[Uuid(1)]) == 15.0
  {
    var x := Intake1("a", "SKU1", 10.0, 2.5);
    assert [x][..0] == [];
    assert ResolveIn(Shop(), x) == Some(Uuid(1));
  }

  /** Three records whose second names an unknown code: one conflict, the other two inserted. */
  lemma PartialFailureExample(now: Timestamp)
    ensures var r := Run(Shop(), [Intake1("a", "SKU1", 1.0, 1.0), Intake1("b", "NOPE", 1.0, 1.0), Intake1("c", "SKU1", 2.0, 1.0)], now);
            r.inserted == 2 && r.accepted == ["a", "c"] && r.conflicts == [ProdutoNaoEncontrado(None, Some("NOPE"))]
            && StockOf(r.store.products[Uuid(1)]) == 8.0
  {
    var a, b, c := Intake1("a", "SKU1", 1.0, 1.0), Intake1("b", "NOPE", 1.0, 1.0), Intake1("c", "SKU1", 2.0, 1.0);
    assert [a, b, c][..2] == [a, b];
    assert [a, b][..1] == [a];
    assert [a][..0] == [];
    var r1 := Step(Start(Shop()), a, now);
    assert Run(Shop(), [a], now) == r1;
    assert ResolveIn(Shop(), a) == Some(Uuid(1));
    assert r1.inserted == 1 && r1.accepted == ["a"] && r1.conflicts == [];
    var r2 := Step(r1, b, now);
    assert Run(Shop(), [a, b], now) == r2;
    assert ResolveIn(r1.store, b) == None;
    assert r2 == r1.(conflicts := [ProdutoNaoEncontrado(None, Some("NOPE"))]);
    var r3 := Step(r2, c, now);
    assert Run(Shop(), [a, b, c], now) == r3;
    assert ResolveIn(r2.store, c) == Some(Uuid(1));
    assert r3.inserted == 2 && r3.accepted == ["a", "c"];
  }
}
