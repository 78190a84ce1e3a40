/**
 * `importarExcel` as a pure pipeline over an abstract store:
 * parse → empty-list gates → consistency gate → classify → reconciliation gate → PO upsert →
 * poNumber→id map → carton filter → carton insert → import record.
 * The per-statement outcome of each bulk insert comes from an oracle, the record timestamp from
 * the environment.
 */
module ShippingController {
  import opened Wrappers
  import opened ShippingTypes
  import opened ExcelShippingParser
  import CartonConsistency
  import CartonClassifier
  import ShippingTotals
  import PurchaseOrders
  import Cartons
  import ShippingImports

  /** The three tables the import writes. */
  datatype Store = Store(
    pos: PurchaseOrders.PoTable,
    cartons: Cartons.CartonTable,
    imports: ShippingImports.ImportTable)

  /** The request: the uploaded workbook (None when no file came), its original name, the user. */
  datatype Request = Request(file: Option<Workbook>, fileName: string, usuario: nat)

  /** What the run cannot see: the timestamp of import records and the two insert oracles. */
  datatype Env = Env(now: nat, poOracle: Oracle, cartonOracle: Oracle)

  /** How the request ends. */
  datatype Outcome =
    | NoFile
    | ReadFailed(failure: ParseFailure)
    | NoValidPos
    | NoValidCartons
    | Inconsistent(errores: seq<ShippingError>)
    | Unbalanced(errores: seq<ShippingError>)
    | Imported(record: ShippingImports.ImportRecord, erroresPos: nat, erroresCartones: nat,
               resumen: seq<ShippingTotals.PoSummary>)

  datatype Run = Run(outcome: Outcome, store: Store)

  /** A consistency check of the carton lines. */
  type ConsistencyCheck = seq<CartonCandidate> -> CartonConsistency.ConsistencyReport

  function ParserErrors(es: seq<RowError>): (r: seq<ImportError>)
    ensures |r| == |es|
  {
    seq(|es|, i requires 0 <= i < |es| => ParserError(es[i]))
  }

  function ValidationErrors(es: seq<ShippingError>): (r: seq<ImportError>)
    ensures |r| == |es|
  {
    seq(|es|, i requires 0 <= i < |es| => ValidationError(es[i]))
  }

  /** The PO errors tagged `PO_INSERT`. */
  function PoInsertErrors(es: seq<PurchaseOrders.PoFailure>): (r: seq<ImportError>)
    ensures |r| == |es|
  {
    seq(|es|, i requires 0 <= i < |es| => PoInsertError(es[i].po, es[i].message))
  }

  /** The carton errors tagged `CARTON_INSERT`. */
  function CartonInsertErrors(es: seq<Cartons.CartonFailure>): (r: seq<ImportError>)
    ensures |r| == |es|
  {
    seq(|es|, i requires 0 <= i < |es| => CartonInsertError(es[i].cartonId, es[i].message))
  }

  /** `posMap`: each created PO's number mapped to its id, later rows overwriting earlier ones. */
  function PosIdMap(created: seq<PurchaseOrders.PoRecord>): map<string, nat>
  {
    if created == [] then map[]
    else PosIdMap(created[..|created| - 1])[created[|created| - 1].poNumber := created[|created| - 1].id]
  }

  /** The filter `c => c.poId`: the carton's PO number maps to an id, and that id is not 0. */
  predicate Kept(c: CartonCandidate, posMap: map<string, nat>)
  {
    c.poNumber in posMap && posMap[c.poNumber] != 0
  }

  /** `cartonesValidos`: the classified lines with their PO id, those failing the filter dropped. */
  function AttachPoIds(ts: seq<TypedCarton>, posMap: map<string, nat>): seq<Cartons.CartonInsert>
  {
    if ts == [] then []
    else
      var c := ts[0].carton;
      (if Kept(c, posMap) then [Cartons.CartonInsert(posMap[c.poNumber], c.cartonId, c.sku, c.cantidadPorCarton)] else [])
      + AttachPoIds(ts[1..], posMap)
  }

  /** How many classified lines the filter drops. */
  function DroppedCount(ts: seq<TypedCarton>, posMap: map<string, nat>): nat
  {
    if ts == [] then 0 else (if Kept(ts[0].carton, posMap) then 0 else 1) + DroppedCount(ts[1..], posMap)
  }

  /** `importarExcel` with the consistency gate given by `check`. */
  function ImportPipeline(check: ConsistencyCheck, req: Request, env: Env, store: Store): Run
  {
    match req.file
    case None => Run(NoFile, store)
    case Some(wb) =>
      match ParseShippingExcel(wb)
      case Failure(f) => Run(ReadFailed(f), store)
      case Success(parsed) => AfterParse(check, req, env, store, parsed)
  }

  /** The gates after parsing, the classification and the reconciliation. */
  function AfterParse(check: ConsistencyCheck, req: Request, env: Env, store: Store, parsed: ParsedShipping): Run
  {
    if |parsed.pos| == 0 then Run(NoValidPos, store)
    else if |parsed.cartones| == 0 then Run(NoValidCartons, store)
    else
      var consistencia := check(parsed.cartones);
      if !consistencia.valido then Run(Inconsistent(consistencia.errores), store)
      else
        var conTipo := CartonClassifier.IdentificarTipoCartones(parsed.cartones);
        var validacion := ShippingTotals.ValidateShippingData(parsed.pos, CartonClassifier.Untag(conTipo));
        if !validacion.valido then
          var data := ShippingImports.ImportData(
            req.fileName, Some(|parsed.pos|), Some(0), Some(|conTipo|), Some(0),
            Some(ParserErrors(parsed.errores) + ValidationErrors(validacion.errores)), req.usuario);
          Run(Unbalanced(validacion.errores), store.(imports := ShippingImports.Create(store.imports, data, env.now).0))
        else
          Persist(req, env, store, parsed.pos, conTipo, parsed.errores, validacion.resumen)
  }

  /** The inserts and the import record of a reconciled manifest. */
  function Persist(req: Request, env: Env, store: Store, pos: seq<PoCandidate>, conTipo: seq<TypedCarton>,
                   erroresParser: seq<RowError>, resumen: seq<ShippingTotals.PoSummary>): Run
  {
    var poBulk := PurchaseOrders.BulkCreate(store.pos, pos, env.poOracle);
    var posMap := PosIdMap(poBulk.created);
    var validos := AttachPoIds(conTipo, posMap);
    var cartonBulk := Cartons.BulkCreate(store.cartons, validos, env.cartonOracle);
    var todos := ParserErrors(erroresParser) + PoInsertErrors(poBulk.errors) + CartonInsertErrors(cartonBulk.errors);
    var data := ShippingImports.ImportData(
      req.fileName, Some(|pos|), Some(|poBulk.created|), Some(|conTipo|), Some(|cartonBulk.created|),
      if |todos| > 0 then Some(todos) else None, req.usuario);
    var (imports', record) := ShippingImports.Create(store.imports, data, env.now);
    Run(Imported(record, |poBulk.errors|, |cartonBulk.errors|, resumen), Store(poBulk.table, cartonBulk.table, imports'))
  }

  /** `importarExcel` as deployed: the consistency check keyed by the concatenated string. */
  function ImportarExcel(req: Request, env: Env, store: Store): Run
  {
    ImportPipeline(CartonConsistency.ValidateCartonConsistency, req, env, store)
  }

  /** `importarExcel` with the consistency check keyed by the (carton, SKU) pair instead. */
  function ImportarExcelByPair(req: Request, env: Env, store: Store): Run
  {
    ImportPipeline(CartonConsistency.ValidateCartonConsistencyByPair, req, env, store)
  }

  // ---------------------------------------------------------------------------------------------
  // The PO id map and the carton filter.

  /** A number is in `posMap` exactly when a created row carries it. */
  lemma {:induction false} PosIdMapKeys(created: seq<PurchaseOrders.PoRecord>)
    ensures forall k :: k in PosIdMap(created) <==> exists i :: 0 <= i < |created| && created[i].poNumber == k
  {
    if created != [] {
      var p := created[..|created| - 1];
      PosIdMapKeys(p);
      assert forall i :: 0 <= i < |p| ==> p[i] == created[i];
    }
  }

  /** A number in `posMap` maps to the id of the last created row carrying it. */
  lemma {:induction false} PosIdMapLast(created: seq<PurchaseOrders.PoRecord>, k: string)
    requires k in PosIdMap(created)
    ensures exists i :: 0 <= i < |created| && created[i].poNumber == k && created[i].id == PosIdMap(created)[k]
                        && forall j :: i < j < |created| ==> created[j].poNumber != k
  {
    var p := created[..|created| - 1];
    var last := created[|created| - 1];
    assert PosIdMap(created) == PosIdMap(p)[last.poNumber := last.id];
    if k == last.poNumber {
      assert created[|created| - 1].poNumber == k;
    } else {
      assert k in PosIdMap(p) && PosIdMap(created)[k] == PosIdMap(p)[k];
      PosIdMapLast(p, k);
      var i :| 0 <= i < |p| && p[i].poNumber == k && p[i].id == PosIdMap(p)[k]
               && forall j :: i < j < |p| ==> p[j].poNumber != k;
      assert created[i] == p[i];
      assert forall j :: i < j < |created| ==> created[j].poNumber != k by {
        assert forall j :: i < j < |p| ==> created[j] == p[j];
      }
    }
  }

  /**
   * The filter keeps the lines whose PO maps to a non-zero id, in order, each with that id and its
   * own carton, SKU and quantity; the kept and the dropped lines add up to all lines.
   */
  lemma {:induction false} AttachPoIdsKeeps(ts: seq<TypedCarton>, posMap: map<string, nat>)
    ensures |AttachPoIds(ts, posMap)| + DroppedCount(ts, posMap) == |ts|
    ensures forall x :: x in AttachPoIds(ts, posMap) ==>
              exists t :: t in ts && Kept(t.carton, posMap) && x.poId == posMap[t.carton.poNumber]
                          && x.cartonId == t.carton.cartonId && x.sku == t.carton.sku
                          && x.cantidadPorCarton == t.carton.cantidadPorCarton
    ensures DroppedCount(ts, posMap) == 0 <==> forall i :: 0 <= i < |ts| ==> Kept(ts[i].carton, posMap)
  {
    if ts != [] {
      AttachPoIdsKeeps(ts[1..], posMap);
      assert forall i :: 0 < i < |ts| ==> ts[i] == ts[1..][i - 1];
      forall x | x in AttachPoIds(ts, posMap)
        ensures exists t :: t in ts && Kept(t.carton, posMap) && x.poId == posMap[t.carton.poNumber]
                            && x.cartonId == t.carton.cartonId && x.sku == t.carton.sku
                            && x.cantidadPorCarton == t.carton.cantidadPorCarton
      {
        if x !in AttachPoIds(ts[1..], posMap) {
          assert ts[0] in ts;
        } else {
          var t :| t in ts[1..] && Kept(t.carton, posMap) && x.poId == posMap[t.carton.poNumber]
                   && x.cartonId == t.carton.cartonId && x.sku == t.carton.sku
                   && x.cantidadPorCarton == t.carton.cantidadPorCarton;
          assert t in ts;
        }
      }
    }
  }

  // ---------------------------------------------------------------------------------------------
  // Persisting a reconciled manifest.

  /**
   * The import record of a reconciled manifest: totals are the PO count and the classified line
   * count, created counts are the created lists' lengths and never exceed the totals, and every
   * classified line is created, failed with a CARTON_INSERT error, or silently dropped by the filter.
   */
  lemma PersistCounts(req: Request, env: Env, store: Store, pos: seq<PoCandidate>, conTipo: seq<TypedCarton>,
                      erroresParser: seq<RowError>, resumen: seq<ShippingTotals.PoSummary>)
    requires PurchaseOrders.Valid(store.pos)
    ensures var run := Persist(req, env, store, pos, conTipo, erroresParser, resumen);
            var poBulk := PurchaseOrders.BulkCreate(store.pos, pos, env.poOracle);
            var posMap := PosIdMap(poBulk.created);
            && run.outcome.Imported?
            && run.outcome.record.totalPos == |pos|
            && run.outcome.record.posCreadas + run.outcome.erroresPos == |pos|
            && 0 <= run.outcome.record.posCreadas <= run.outcome.record.totalPos
            && run.outcome.record.totalCartones == |conTipo|
            && run.outcome.record.cartonesCreados + run.outcome.erroresCartones + DroppedCount(conTipo, posMap) == |conTipo|
            && 0 <= run.outcome.record.cartonesCreados <= run.outcome.record.totalCartones
            && run.store.imports.records == store.imports.records + [run.outcome.record]
  {
    var poBulk := PurchaseOrders.BulkCreate(store.pos, pos, env.poOracle);
    var posMap := PosIdMap(poBulk.created);
    var validos := AttachPoIds(conTipo, posMap);
    PurchaseOrders.BulkCreateAccounts(store.pos, pos, env.poOracle);
    AttachPoIdsKeeps(conTipo, posMap);
    Cartons.BulkCreateAccounts(store.cartons, validos, env.cartonOracle);
  }

  /**
   * The stored error list is the parser errors, then the PO errors tagged PO_INSERT, then the
   * carton errors tagged CARTON_INSERT, and NULL when all three are empty. Dropped lines add nothing.
   */
  lemma PersistErrors(req: Request, env: Env, store: Store, pos: seq<PoCandidate>, conTipo: seq<TypedCarton>,
                      erroresParser: seq<RowError>, resumen: seq<ShippingTotals.PoSummary>)
    ensures var run := Persist(req, env, store, pos, conTipo, erroresParser, resumen);
            var poBulk := PurchaseOrders.BulkCreate(store.pos, pos, env.poOracle);
            var validos := AttachPoIds(conTipo, PosIdMap(poBulk.created));
            var cartonBulk := Cartons.BulkCreate(store.cartons, validos, env.cartonOracle);
            var todos := ParserErrors(erroresParser) + PoInsertErrors(poBulk.errors) + CartonInsertErrors(cartonBulk.errors);
            && run.outcome.Imported?
            && (run.outcome.record.errores.None? <==> erroresParser == [] && poBulk.errors == [] && cartonBulk.errors == [])
            && (run.outcome.record.errores.Some? ==> run.outcome.record.errores.value == todos)
            && (forall k :: 0 <= k < |todos| ==>
                  (k < |erroresParser| ==> todos[k] == ParserError(erroresParser[k]))
                  && (|erroresParser| <= k < |erroresParser| + |poBulk.errors| ==> todos[k].PoInsertError?)
                  && (|erroresParser| + |poBulk.errors| <= k ==> todos[k].CartonInsertError?))
  {
  }

  /**
   * Only lines whose PO row was created by this run reach the carton insert: every inserted line
   * carries the id of a created row with the line's PO number, the last one created for it.
   */
  lemma PersistOnlyCreatedPos(req: Request, env: Env, store: Store, pos: seq<PoCandidate>, conTipo: seq<TypedCarton>,
                              erroresParser: seq<RowError>, resumen: seq<ShippingTotals.PoSummary>)
    ensures var poBulk := PurchaseOrders.BulkCreate(store.pos, pos, env.poOracle);
            var validos := AttachPoIds(conTipo, PosIdMap(poBulk.created));
            forall x :: x in validos ==>
              exists t, i :: t in conTipo && 0 <= i < |poBulk.created| && x.cartonId == t.carton.cartonId
                             && poBulk.created[i].poNumber == t.carton.poNumber && poBulk.created[i].id == x.poId
                             && x.poId != 0
  {
    var poBulk := PurchaseOrders.BulkCreate(store.pos, pos, env.poOracle);
    var posMap := PosIdMap(poBulk.created);
    var validos := AttachPoIds(conTipo, posMap);
    AttachPoIdsKeeps(conTipo, posMap);
    forall x | x in validos
      ensures exists t, i :: t in conTipo && 0 <= i < |poBulk.created| && x.cartonId == t.carton.cartonId
                             && poBulk.created[i].poNumber == t.carton.poNumber && poBulk.created[i].id == x.poId
                             && x.poId != 0
    {
      var t :| t in conTipo && Kept(t.carton, posMap) && x.poId == posMap[t.carton.poNumber]
               && x.cartonId == t.carton.cartonId && x.sku == t.carton.sku
               && x.cantidadPorCarton == t.carton.cantidadPorCarton;
      PosIdMapLast(poBulk.created, t.carton.poNumber);
      var i :| 0 <= i < |poBulk.created| && poBulk.created[i].poNumber == t.carton.poNumber
               && poBulk.created[i].id == posMap[t.carton.poNumber]
               && forall j :: i < j < |poBulk.created| ==> poBulk.created[j].poNumber != t.carton.poNumber;
    }
  }

  /**
   * The import record of a reconciled manifest counts as fully imported exactly when no PO insert
   * failed and every classified line was inserted: none failed and none was dropped.
   */
  lemma PersistFullyImported(req: Request, env: Env, store: Store, pos: seq<PoCandidate>, conTipo: seq<TypedCarton>,
                             erroresParser: seq<RowError>, resumen: seq<ShippingTotals.PoSummary>)
    requires PurchaseOrders.Valid(store.pos)
    ensures var run := Persist(req, env, store, pos, conTipo, erroresParser, resumen);
            var poBulk := PurchaseOrders.BulkCreate(store.pos, pos, env.poOracle);
            var posMap := PosIdMap(poBulk.created);
            run.outcome.Imported?
            && (ShippingImports.IsFullyImported(run.outcome.record) <==>
                  run.outcome.erroresPos == 0 && run.outcome.erroresCartones == 0 && DroppedCount(conTipo, posMap) == 0)
  {
    PersistCounts(req, env, store, pos, conTipo, erroresParser, resumen);
  }

  // ---------------------------------------------------------------------------------------------
  // The whole request.

  /**
   * The request stops before any write, leaving the store as it was, when no file came, when the
   * workbook lacks a sheet, when either sheet yields no record, or when the consistency check fails;
   * the empty-list gates run before the consistency check.
   */
  lemma EarlyExitsWriteNothing(check: ConsistencyCheck, req: Request, env: Env, store: Store)
    ensures var run := ImportPipeline(check, req, env, store);
            (run.outcome.NoFile? || run.outcome.ReadFailed? || run.outcome.NoValidPos?
             || run.outcome.NoValidCartons? || run.outcome.Inconsistent?) ==> run.store == store
    ensures req.file.None? <==> ImportPipeline(check, req, env, store).outcome.NoFile?
    ensures req.file.Some? ==>
              (ImportPipeline(check, req, env, store).outcome.ReadFailed? <==> ParseShippingExcel(req.file.value).Failure?)
    ensures req.file.Some? && ParseShippingExcel(req.file.value).Success? ==>
              var parsed := ParseShippingExcel(req.file.value).value;
              && (ImportPipeline(check, req, env, store).outcome.NoValidPos? <==> parsed.pos == [])
              && (ImportPipeline(check, req, env, store).outcome.NoValidCartons? <==>
                    parsed.pos != [] && parsed.cartones == [])
              && (ImportPipeline(check, req, env, store).outcome.Inconsistent? <==>
                    parsed.pos != [] && parsed.cartones != [] && !check(parsed.cartones).valido)
  {
    if req.file.Some? && ParseShippingExcel(req.file.value).Success? {
      var parsed := ParseShippingExcel(req.file.value).value;
      if parsed.pos != [] && parsed.cartones != [] && check(parsed.cartones).valido {
        var conTipo := CartonClassifier.IdentificarTipoCartones(parsed.cartones);
        var validacion := ShippingTotals.ValidateShippingData(parsed.pos, CartonClassifier.Untag(conTipo));
        if validacion.valido {
          PersistShape(req, env, store, parsed.pos, conTipo, parsed.errores, validacion.resumen);
        }
      }
    }
  }

  /** Persisting always ends in an import. */
  lemma PersistShape(req: Request, env: Env, store: Store, pos: seq<PoCandidate>, conTipo: seq<TypedCarton>,
                     erroresParser: seq<RowError>, resumen: seq<ShippingTotals.PoSummary>)
    ensures Persist(req, env, store, pos, conTipo, erroresParser, resumen).outcome.Imported?
  {
  }

  /** The classified list has one line per parsed carton line. */
  lemma ClassifiedCount(cartones: seq<CartonCandidate>)
    ensures |CartonClassifier.IdentificarTipoCartones(cartones)| == |cartones|
  {
    var r := CartonClassifier.IdentificarTipoCartones(cartones);
    assert |multiset(CartonClassifier.Untag(r))| == |multiset(cartones)|;
  }

  /**
   * A failed reconciliation leaves the PO and carton tables untouched and appends one import record
   * with zero created, the file's PO and carton-line counts as totals, and the parser errors
   * followed by the reconciliation errors. That record is never the last import.
   */
  lemma UnbalancedWritesOnlyRecord(check: ConsistencyCheck, req: Request, env: Env, store: Store)
    requires req.file.Some? && ParseShippingExcel(req.file.value).Success?
    requires ImportPipeline(check, req, env, store).outcome.Unbalanced?
    ensures var run := ImportPipeline(check, req, env, store);
            var parsed := ParseShippingExcel(req.file.value).value;
            && run.store.pos == store.pos && run.store.cartons == store.cartons
            && |run.store.imports.records| == |store.imports.records| + 1
            && run.store.imports.records[..|store.imports.records|] == store.imports.records
            && var r := run.store.imports.records[|store.imports.records|];
               && r.posCreadas == 0 && r.cartonesCreados == 0
               && r.totalPos == |parsed.pos| > 0 && r.totalCartones == |parsed.cartones| > 0
               && r.errores == Some(ParserErrors(parsed.errores) + ValidationErrors(run.outcome.errores))
               && run.outcome.errores != []
               && ShippingImports.GetUltimaImportacion(run.store.imports) == ShippingImports.GetUltimaImportacion(store.imports)
  {
    var parsed := ParseShippingExcel(req.file.value).value;
    ClassifiedCount(parsed.cartones);
    var conTipo := CartonClassifier.IdentificarTipoCartones(parsed.cartones);
    var validacion := ShippingTotals.ValidateShippingData(parsed.pos, CartonClassifier.Untag(conTipo));
    var data := ShippingImports.ImportData(
      req.fileName, Some(|parsed.pos|), Some(0), Some(|conTipo|), Some(0),
      Some(ParserErrors(parsed.errores) + ValidationErrors(validacion.errores)), req.usuario);
    ShippingImports.PartialCreateKeepsLatest(store.imports, data, env.now);
  }

  /**
   * An import that gets past both gates writes one import record whose totals are the parsed PO
   * and carton-line counts and whose created counts do not exceed them.
   */
  lemma ImportedRecord(check: ConsistencyCheck, req: Request, env: Env, store: Store)
    requires PurchaseOrders.Valid(store.pos)
    requires req.file.Some? && ParseShippingExcel(req.file.value).Success?
    requires ImportPipeline(check, req, env, store).outcome.Imported?
    ensures var run := ImportPipeline(check, req, env, store);
            var parsed := ParseShippingExcel(req.file.value).value;
            var r := run.outcome.record;
            && run.store.imports.records == store.imports.records + [r]
            && r.totalPos == |parsed.pos| && r.totalCartones == |parsed.cartones|
            && 0 <= r.posCreadas <= r.totalPos && 0 <= r.cartonesCreados <= r.totalCartones
  {
    var parsed := ParseShippingExcel(req.file.value).value;
    ClassifiedCount(parsed.cartones);
    var conTipo := CartonClassifier.IdentificarTipoCartones(parsed.cartones);
    var validacion := ShippingTotals.ValidateShippingData(parsed.pos, CartonClassifier.Untag(conTipo));
    assert ImportPipeline(check, req, env, store) == AfterParse(check, req, env, store, parsed);
    assert AfterParse(check, req, env, store, parsed)
           == Persist(req, env, store, parsed.pos, conTipo, parsed.errores, validacion.resumen);
    PersistCounts(req, env, store, parsed.pos, conTipo, parsed.errores, validacion.resumen);
  }

  /**
   * The deployed check only rejects more: whenever the deployed pipeline imports, the pair-keyed one
   * does the same run; and on manifests whose concatenated keys do not collide the two pipelines
   * are the same.
   */
  lemma AcceptedAgreesWithByPair(req: Request, env: Env, store: Store)
    ensures !ImportarExcel(req, env, store).outcome.Inconsistent? ==>
              ImportarExcel(req, env, store) == ImportarExcelByPair(req, env, store)
  {
    if req.file.Some? && ParseShippingExcel(req.file.value).Success? {
      var parsed := ParseShippingExcel(req.file.value).value;
      CartonConsistency.AsWrittenImpliesByPair(parsed.cartones);
    }
  }

  /** Without colliding keys among the parsed lines the deployed and the pair-keyed pipelines agree. */
  lemma NoCollisionSameRun(req: Request, env: Env, store: Store)
    requires req.file.Some? && ParseShippingExcel(req.file.value).Success?
    requires var cs := ParseShippingExcel(req.file.value).value.cartones;
             forall i, j :: 0 <= i < |cs| && 0 <= j < |cs|
                            && CartonConsistency.ConsistencyKey(cs[i]) == CartonConsistency.ConsistencyKey(cs[j])
                            ==> CartonConsistency.PairKey(cs[i]) == CartonConsistency.PairKey(cs[j])
    ensures ImportarExcel(req, env, store) == ImportarExcelByPair(req, env, store)
  {
    var parsed := ParseShippingExcel(req.file.value).value;
    CartonConsistency.NoCollisionSameReport(parsed.cartones);
  }
}
