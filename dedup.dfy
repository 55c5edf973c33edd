/**
 * Duplicate detection for records that carry their original timestamp: a
 * ledger row is the same logical event when product, user (or no user),
 * quantity, unit cost, cost total and timestamp are all exactly equal.
 */
module Dedup {
  import opened Wrappers
  import opened Uuids
  import opened Records

  /** The composite deduplication key. */
  datatype Key = Key(
    produtoId: Uuid,
    usuarioId: Option<Uuid>,
    quantidade: real,
    custoUnitario: real,
    totalCusto: real,
    createdAt: Timestamp)

  /** The key of a timestamped record resolved to product `pid` and user `user`. */
  function KeyOf(pid: Uuid, user: Option<Uuid>, item: Intake): Key
    requires item.createdAt.Some?
  {
    Key(pid, user, item.quantidade, item.custoUnitario, TotalCustoOf(item), item.createdAt.value)
  }

  /** A row matches a key on all six components; no user matches only a row with no user. */
  predicate Matches(row: Row, key: Key) {
    && row.produtoId == key.produtoId
    && row.usuarioId == key.usuarioId
    && row.quantidade == key.quantidade
    && row.custoUnitario == key.custoUnitario
    && row.totalCusto == key.totalCusto
    && row.createdAt == key.createdAt
  }

  ghost predicate HasMatch(ledger: seq<Row>, key: Key) {
    exists i :: 0 <= i < |ledger| && Matches(ledger[i], key)
  }

  /** The duplicate query (`... LIMIT 1`): the position of a matching row, if any. */
  function FindDuplicate(ledger: seq<Row>, key: Key): (r: Option<nat>)
    ensures r.Some? ==> r.value < |ledger| && Matches(ledger[r.value], key)
    ensures r.None? <==> !HasMatch(ledger, key)
  {
    if |ledger| == 0 then None
    else if Matches(ledger[0], key) then Some(0)
    else
      match FindDuplicate(ledger[1..], key)
      case Some(j) => Some(j + 1)
      case None =>
        assert forall i :: 1 <= i < |ledger| ==> ledger[i] == ledger[1..][i - 1];
        None
  }

  /** A match stays a match when rows are appended after it. */
  lemma HasMatchExtends(ledger: seq<Row>, longer: seq<Row>, key: Key)
    requires |ledger| <= |longer| && longer[..|ledger|] == ledger
    requires HasMatch(ledger, key)
    ensures HasMatch(longer, key)
  {
    var i :| 0 <= i < |ledger| && Matches(ledger[i], key);
    assert longer[i] == ledger[i];
  }
}
