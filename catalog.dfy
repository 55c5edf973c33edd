/**
 * Resolution of a record's product and user references against the catalog.
 * Only which product ids and codes exist matters, so resolution takes the set
 * of catalogued ids and the code index.
 */
module Catalog {
  import opened Wrappers
  import opened Uuids
  import opened Records

  /** The id path succeeds: `produto_id` is present, parses, and names a catalogued product. */
  predicate FoundById(ids: set<Uuid>, item: Intake) {
    Present(item.produtoId) && ParseUuid(item.produtoId.value).Some? && ParseUuid(item.produtoId.value).value in ids
  }

  /**
   * The code path succeeds: `produto_codigo` is present and names a
   * catalogued product. In the database a code is a column of the product
   * row, so the index never points at a missing product; the membership
   * test is defensive and keeps `Resolve` total on any `Store`.
   */
  predicate FoundByCode(ids: set<Uuid>, byCode: map<string, Uuid>, item: Intake) {
    Present(item.produtoCodigo) && item.produtoCodigo.value in byCode && byCode[item.produtoCodigo.value] in ids
  }

  /**
   * The product a record refers to. The id is tried first; a missing,
   * malformed or unknown id falls back to the code; `None` is "not found".
   */
  function Resolve(ids: set<Uuid>, byCode: map<string, Uuid>, item: Intake): (r: Option<Uuid>)
    ensures r.Some? ==> r.value in ids
    ensures FoundById(ids, item) ==> r == Some(ParseUuid(item.produtoId.value).value)
    ensures !FoundById(ids, item) && FoundByCode(ids, byCode, item) ==> r == Some(byCode[item.produtoCodigo.value])
    ensures r.None? <==> !FoundById(ids, item) && !FoundByCode(ids, byCode, item)
  {
    var byId :=
      if Present(item.produtoId) then
        match ParseUuid(item.produtoId.value)
        case Some(pid) => if pid in ids then Some(pid) else None
        case None => None
      else None;
    if byId.Some? then byId
    else if Present(item.produtoCodigo) && item.produtoCodigo.value in byCode then
      var pid := byCode[item.produtoCodigo.value];
      if pid in ids then Some(pid) else None
    else None
  }

  /**
   * The user a record is attributed to: the parsed `usuario_id`, or no user
   * when it is absent, empty or malformed (the parse error is swallowed).
   */
  function UserOf(item: Intake): (r: Option<Uuid>)
    ensures r.Some? <==> Present(item.usuarioId) && ParseUuid(item.usuarioId.value).Some?
    ensures r.Some? ==> r == ParseUuid(item.usuarioId.value)
  {
    if Present(item.usuarioId) then ParseUuid(item.usuarioId.value) else None
  }

  /** A `usuario_id` holding the canonical text of a UUID names exactly that user. */
  lemma UserOfFormat(item: Intake, u: Uuid)
    requires u.value < Pow16(32)
    requires item.usuarioId == Some(FormatUuid(u))
    ensures UserOf(item) == Some(u)
  {
    ParseFormat(u);
  }
}
