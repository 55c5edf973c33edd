# Idempotent bulk stock-intake ingestion, modelled in Dafny

This project models the bulk ingestion endpoint of a point-of-sale back end
(`POST /api/abastecimentos/bulk`, `bulk_create_abastecimentos`). Terminals
buffer stock-intake records (`abastecimentos`) offline and send them in
batches, often more than once. For each record, in order, the endpoint:

1. resolves the product, by `produto_id` (a UUID) first and by
   `produto_codigo` second. A malformed id silently falls back to the code.
   A record that resolves by neither path becomes a `produto_nao_encontrado`
   conflict.
2. when the record carries `created_at`, looks for a ledger row with the
   same product, user (or no user), `quantidade`, `custo_unitario`,
   `total_custo` and `created_at`. If one exists, the record is a
   duplicate: nothing is written, but its `local_id` is accepted.
3. otherwise appends a ledger row (`total = quantidade * custo_unitario`,
   `total_custo` defaulting to the same product), adds `quantidade` to the
   product's `estoque` and sets its `updated_at`.

It then commits if anything was inserted and rolls back otherwise. It
returns `inserted`, `accepted` and `conflicts`.

Layout (one module per file):

- `wrappers.dfy`: `Option`.
- `uuids.dfy`: parsing of UUID text, and its canonical form.
- `records.dfy`: the incoming records, products, ledger rows, the session
  store and the report.
- `catalog.dfy`: product and user resolution.
- `dedup.dfy`: the composite key and the duplicate query.
- `ledger.dfy`: the row written for a record, and the write with its stock
  update.
- `ingestion.dfy`: `Step` (one record) and `Run` (a batch) as functions.
  They are the specification of the endpoint.
- `properties.dfy`: lemmas about whole batches.
- `scenarios.dfy`: two worked batches.
- `sessions.dfy`: the `Session` class. It holds the live catalog and ledger
  plus the committed state. Its `BulkCreate` method is the endpoint's loop,
  proved equal to `Run`.

Quantities, costs and stock are exact `real`s. Timestamps are integers
compared for equality. The wall clock is a parameter `now`.

Three behaviours of the code worth noting:

- the not-found conflict carries the submitted `produto_id` and
  `produto_codigo` but not the `local_id`;
- a malformed `usuario_id` is silently treated as "no user", both for the
  duplicate key and for the stored row;
- `local_id` is accepted whenever it is not `None`, so an empty string is
  accepted too.

## Model

| member | source | states |
|---|---|---|
| `Uuids.ParseUuid` | app/routers/abastecimentos.py:137-143 | a UUID text is accepted exactly when, with hyphens removed, it is 32 hex digits; the value then fits in 128 bits; every other text is treated as the swallowed `ValueError`, within the limits listed under Left out |
| `Uuids.ParseFormat` | app/routers/abastecimentos.py:139 | the canonical text of a product's UUID parses back to that same UUID |
| `Catalog.Resolve` | app/routers/abastecimentos.py:136-146 | a well-formed, catalogued `produto_id` wins; an absent, empty, malformed or unknown id falls back to `produto_codigo`; `None` exactly when neither path finds a product; the result is always a catalogued product |
| `Catalog.UserOfFormat` | app/routers/abastecimentos.py:156-161 | a `usuario_id` holding the canonical text of a UUID attributes the record to exactly that user |
| `Catalog.UserOf` | app/routers/abastecimentos.py:156-161 | the user is set exactly when `usuario_id` is present and parses; otherwise there is no user |
| `Dedup.FindDuplicate` | app/routers/abastecimentos.py:179-193 | a returned position holds a row matching all six key components; `None` exactly when no row of the ledger matches |
| `Ledger.NewRow` | app/routers/abastecimentos.py:202-238 | the written row has `total = quantidade * custo_unitario`; its `total_custo` is the supplied value or that total; its `created_at` is the claimed timestamp, or `now` without one; a timestamped row matches its own record's duplicate key |
| `Ledger.Write` | app/routers/abastecimentos.py:202-230 | writing appends exactly one row; it raises the resolved product's stock by `quantidade` (a null stock counts as 0) and sets its `updated_at`; every other product and the catalog's ids and codes are unchanged |
| `Ingestion.Step` | app/routers/abastecimentos.py:133-244 | per record: at most one row; no row means no state change; accepted exactly when resolved; a conflict exactly when not resolved; an untimestamped resolved record is always written; a timestamped one is written exactly when no ledger row matches its key |
| `Ingestion.Run` | app/routers/abastecimentos.py:133-245 | over a batch the ledger is append-only and grows by exactly `inserted` rows; the catalog's ids and codes are unchanged; `inserted == 0` leaves the session as it was |
| `Properties.RunReport` | app/routers/abastecimentos.py:148-242 | `accepted` is the non-null `local_id`s of the resolvable records in input order, duplicates included; `conflicts` has one entry per unresolvable record, in input order |
| `Properties.UntimestampedAllInserted` | app/routers/abastecimentos.py:174-242 | when no record carries `created_at`, every record is either inserted or a conflict (`inserted` plus the number of conflicts is the number of records), so identical untimestamped records are all inserted |
| `Properties.StepStock` | app/routers/abastecimentos.py:216-227 | one record raises its product's stock by exactly the quantity of the row it appends, sets that product's `updated_at`, and changes no product when it appends nothing |
| `Properties.RunStock` | app/routers/abastecimentos.py:216-227 | each product's stock rises by exactly the sum of the quantities of its new rows; products without new rows are unchanged; products with new rows have `updated_at == now` |
| `Properties.RunRowProvenance` | app/routers/abastecimentos.py:202-238 | every appended row is the row written for some record of the batch that resolves to that row's product |
| `Properties.RunCoversBatch` | app/routers/abastecimentos.py:174-238 | after a batch, every timestamped resolvable record of it has a matching ledger row, including records whose row was written earlier in the same batch |
| `Properties.RecordedBatchInsertsNothing` | app/routers/abastecimentos.py:174-197 | a timestamped batch whose records all already have matching rows inserts nothing |
| `Properties.ResubmitIsIdempotent` | app/routers/abastecimentos.py:163-197 | resubmitting an all-timestamped batch inserts nothing and leaves catalog and ledger unchanged; it reports the same `accepted` and `conflicts` as the first call |
| `Properties.SameBatchDuplicate` | app/routers/abastecimentos.py:174-238 | two identical timestamped records in one batch give one row and one stock increment (none if a match already existed); both `local_id`s are accepted |
| `Properties.RunKeepsBalance` | app/routers/abastecimentos.py:216-220 | if every product's stock equals a base plus the quantities of its ledger rows, a batch keeps that true |
| `Scenarios.DefaultTotalExample` | app/routers/abastecimentos.py:202-220 | 10 units at 2.5 with no total, found by code: one row with `total_custo` 25.0, and stock 5 becomes 15 |
| `Scenarios.PartialFailureExample` | app/routers/abastecimentos.py:144-154 | an unknown code in the middle of three records gives one conflict; the other two records are inserted and accepted |
| `Sessions.Session.constructor` | app/routers/abastecimentos.py:127 | a request's session starts at the durable state, with nothing pending |
| `Sessions.Session.Commit` | app/routers/abastecimentos.py:246-247 | commit makes the current state durable and leaves it unchanged |
| `Sessions.Session.Rollback` | app/routers/abastecimentos.py:248-249 | rollback returns the session to the durable state |
| `Sessions.Session.BulkCreate` | app/routers/abastecimentos.py:126-251 | the returned counts and lists are those of `Run`; if `inserted > 0` the session holds and has committed `Run`'s state; otherwise it is rolled back to the durable state |

## Left out

- The `/historico` read endpoint (lines 14-107): query composition, date parsing, pagination and serialisation.
- FastAPI routing and pydantic validation of the request body (lines 109-127), and the HTTP 500 wrapping of a whole-batch failure (lines 252-254).
- Storage faults. The dedup query's failure falls through to insertion (lines 198-200), and any exception in a record becomes an `erro_interno` conflict (lines 243-244). Both depend on faults of the database, so `Conflict` has only the `produto_nao_encontrado` variant.
- `ParseUuid`: accepts only text that, without hyphens, is exactly 32 hex digits. Python's `uuid.UUID` also removes `urn:` and `uuid:` and strips braces. Its `int(..., 16)` also tolerates surrounding whitespace, underscores, a `0x` prefix, a leading `+` sign and non-ASCII decimal digits. The model rejects these forms, which Python accepts.
- The asynchronous session (`execute`, `flush`, `scalar_one_or_none`) is a plain in-memory store. Row identifiers are not modelled: the duplicate query returns a ledger position.
- Product objects are updated in place in the source. The model reassigns the product's entry in the catalog map, so ORM identity and aliasing are not modelled.
- Floating point: all numbers are exact reals. The `float(...)` conversions, and the unreachable `qtd = 0.0` fallback at lines 217-219, are not modelled.
- The clock: `datetime.utcnow()` for `updated_at` (line 225) and the server-assigned `created_at` of untimestamped rows are one supplied `now` per batch.
- Whether `usuario_id` names an existing user: the source does not check it either. A dangling id would only fail at the database.
- Concurrency between batches and isolation on product rows.
