/**
 * The `shipping_imports` table: one record per import attempt that got past the consistency
 * gate. Models `create` (count defaults, error-list storage) and `getUltimaImportacion`.
 * The creation timestamp is a parameter of `create`.
 */
module ShippingImports {
  import opened Wrappers
  import opened ShippingTypes

  /** A row of `shipping_imports`; `errores` is the stored error list, None for SQL NULL. */
  datatype ImportRecord = ImportRecord(
    id: nat,
    nombreArchivo: string,
    totalPos: int,
    posCreadas: int,
    totalCartones: int,
    cartonesCreados: int,
    errores: Option<seq<ImportError>>,
    importadoPor: nat,
    creadoEn: nat)

  datatype ImportTable = ImportTable(records: seq<ImportRecord>, nextId: nat)

  /** The argument of `create`; an absent count is None. */
  datatype ImportData = ImportData(
    nombreArchivo: string,
    totalPos: Option<int>,
    posCreadas: Option<int>,
    totalCartones: Option<int>,
    cartonesCreados: Option<int>,
    errores: Option<seq<ImportError>>,
    importadoPor: nat)

  /** `x || 0` on a count: an absent count gives 0, a given one is kept (a zero stays zero). */
  function CountOrZero(x: Option<int>): int
  {
    match x
    case None => 0
    case Some(v) => v
  }

  /**
   * `create`: appends a record with absent counts stored as 0 and the error list stored when one
   * was given (an array is truthy even when empty) and as NULL otherwise.
   */
  function Create(t: ImportTable, data: ImportData, creadoEn: nat): (ImportTable, ImportRecord)
  {
    var r := ImportRecord(
      t.nextId, data.nombreArchivo,
      CountOrZero(data.totalPos), CountOrZero(data.posCreadas),
      CountOrZero(data.totalCartones), CountOrZero(data.cartonesCreados),
      if data.errores.Some? then data.errores else None,
      data.importadoPor, creadoEn);
    (ImportTable(t.records + [r], t.nextId + 1), r)
  }

  /** The filter of `getUltimaImportacion`: every PO and every carton line of the file was created. */
  predicate IsFullyImported(r: ImportRecord)
  {
    r.totalPos == r.posCreadas && r.totalCartones == r.cartonesCreados
  }

  /**
   * `getUltimaImportacion`: the fully imported record with the latest `creado_en`. SQL leaves ties
   * unordered; the model takes the one inserted last.
   */
  function GetUltimaImportacion(t: ImportTable): Option<ImportRecord>
  {
    Latest(t.records)
  }

  function Latest(rs: seq<ImportRecord>): Option<ImportRecord>
  {
    if rs == [] then None
    else
      var best := Latest(rs[..|rs| - 1]);
      var r := rs[|rs| - 1];
      if IsFullyImported(r) && (best.None? || best.value.creadoEn <= r.creadoEn) then Some(r) else best
  }

  /** `create` stores the counts it was given, absent ones as 0, and appends exactly one record. */
  lemma CreateDefaults(t: ImportTable, data: ImportData, creadoEn: nat)
    ensures var (t', r) := Create(t, data, creadoEn);
            && t'.records == t.records + [r]
            && (data.totalPos.None? ==> r.totalPos == 0)
            && (data.totalPos.Some? ==> r.totalPos == data.totalPos.value)
            && (data.posCreadas.None? ==> r.posCreadas == 0)
            && (data.posCreadas.Some? ==> r.posCreadas == data.posCreadas.value)
            && (data.totalCartones.None? ==> r.totalCartones == 0)
            && (data.totalCartones.Some? ==> r.totalCartones == data.totalCartones.value)
            && (data.cartonesCreados.None? ==> r.cartonesCreados == 0)
            && (data.cartonesCreados.Some? ==> r.cartonesCreados == data.cartonesCreados.value)
            && (r.errores.None? <==> data.errores.None?)
            && (data.errores.Some? ==> r.errores == data.errores)
  {
  }

  /**
   * `getUltimaImportacion` returns a fully imported record of the table, none of the table's fully
   * imported records is more recent, and it returns nothing only when no record is fully imported.
   */
  lemma {:induction false} LatestIsNewestComplete(rs: seq<ImportRecord>)
    ensures Latest(rs).Some? ==> Latest(rs).value in rs && IsFullyImported(Latest(rs).value)
    ensures Latest(rs).Some? ==>
              forall i :: 0 <= i < |rs| && IsFullyImported(rs[i]) ==> rs[i].creadoEn <= Latest(rs).value.creadoEn
    ensures Latest(rs).None? <==> forall i :: 0 <= i < |rs| ==> !IsFullyImported(rs[i])
  {
    if rs != [] {
      var p := rs[..|rs| - 1];
      var r := rs[|rs| - 1];
      var best := Latest(p);
      LatestIsNewestComplete(p);
      assert forall i :: 0 <= i < |p| ==> p[i] == rs[i];
      if IsFullyImported(r) && (best.None? || best.value.creadoEn <= r.creadoEn) {
        assert Latest(rs) == Some(r);
        assert rs[|rs| - 1] == r;
      } else {
        assert Latest(rs) == best;
        if best.Some? {
          var j :| 0 <= j < |p| && p[j] == best.value;
          assert rs[j] == best.value;
        }
      }
    }
  }

  /** A record whose counts show anything left uncreated is never returned as the last import. */
  lemma PartialRecordNeverLatest(t: ImportTable, r: ImportRecord)
    requires r.posCreadas != r.totalPos || r.cartonesCreados != r.totalCartones
    ensures GetUltimaImportacion(t) != Some(r)
  {
    LatestIsNewestComplete(t.records);
  }

  /**
   * Appending a record that is not fully imported leaves the answer of `getUltimaImportacion`
   * unchanged.
   */
  lemma PartialCreateKeepsLatest(t: ImportTable, data: ImportData, creadoEn: nat)
    requires CountOrZero(data.totalPos) != CountOrZero(data.posCreadas)
    ensures GetUltimaImportacion(Create(t, data, creadoEn).0) == GetUltimaImportacion(t)
  {
    var (t', r) := Create(t, data, creadoEn);
    assert t'.records[..|t'.records| - 1] == t.records;
  }
}
