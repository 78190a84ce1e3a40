/**
 * Records exchanged by the shipping import pipeline: the candidates the spreadsheet parser
 * emits, the diagnostics each stage produces, and the per-record persistence oracle.
 */
module ShippingTypes {
  import opened Wrappers

  /** A row of the "PO" sheet that passed the parser's checks. */
  datatype PoCandidate = PoCandidate(
    poNumber: string,
    cantidadPares: int,
    cantidadCartones: int,
    cfmxfDate: string)

  /** A row of the "Cartones" sheet that passed the parser's checks. */
  datatype CartonCandidate = CartonCandidate(
    cartonId: string,
    sku: string,
    cantidadPorCarton: int,
    poNumber: string)

  /** Carton composition: one distinct SKU (MONO) or several (MUSICAL). */
  datatype Tipo = Mono | Musical

  /** A carton line with the `tipo` the classifier derived for its carton. */
  datatype TypedCarton = TypedCarton(carton: CartonCandidate, tipo: Tipo)

  /** The diagnostics of the consistency check and of the totals reconciliation. */
  datatype ShippingError =
    | PoNoEncontrada(cartonId: string, poNumber: string)
    | ParesNoCuadran(poNumber: string, esperado: int, encontrado: int, diferencia: int)
    | CartonesNoCuadran(poNumber: string, esperado: int, encontrado: int, diferencia: int)
    | CantidadInconsistente(cartonId: string, sku: string, anterior: int, actual: int)
    | PoInconsistente(cartonId: string, sku: string, anteriorPo: string, actualPo: string)

  /** The two sheets of the workbook. */
  datatype Sheet = PoSheet | CartonesSheet

  /** Why a spreadsheet row was skipped. */
  datatype RowErrorKind =
    | MissingColumns
    | EmptyPoNumber
    | InvalidPairs
    | InvalidCartonCount
    | EmptyCartonId
    | EmptySku
    | InvalidQuantity
    | RowException(message: string)

  /** A skipped row: sheet, 1-based spreadsheet row (`fila`) and the identifiers known at that point. */
  datatype RowError = RowError(
    fila: int,
    hoja: Sheet,
    poNumber: Option<string>,
    cartonId: Option<string>,
    kind: RowErrorKind)

  /** An entry of the error list stored with an import record. */
  datatype ImportError =
    | ParserError(rowError: RowError)
    | ValidationError(shippingError: ShippingError)
    | PoInsertError(po: string, message: string)
    | CartonInsertError(cartonId: string, message: string)

  /** What the store does with one insert of a batch: commit it, or raise an error. */
  datatype Attempt = Commit | Fail(message: string)

  /** The store's behaviour on the i-th insert of a batch; any function is a possible run. */
  type Oracle = nat -> Attempt

  /** The positions of the batch whose statement committed, ascending. */
  function CommittedIndices(n: nat, oracle: Oracle): seq<nat>
  {
    if n == 0 then [] else CommittedIndices(n - 1, oracle) + (if oracle(n - 1).Commit? then [n - 1] else [])
  }

  /** The positions of the batch whose statement raised, ascending. */
  function FailedIndices(n: nat, oracle: Oracle): seq<nat>
  {
    if n == 0 then [] else FailedIndices(n - 1, oracle) + (if oracle(n - 1).Fail? then [n - 1] else [])
  }

  lemma {:induction false} FailedIndicesBound(n: nat, oracle: Oracle)
    ensures forall k :: 0 <= k < |FailedIndices(n, oracle)| ==> FailedIndices(n, oracle)[k] < n
    ensures forall k :: 0 <= k < |FailedIndices(n, oracle)| ==> oracle(FailedIndices(n, oracle)[k]).Fail?
  {
    if n > 0 {
      FailedIndicesBound(n - 1, oracle);
    }
  }

  lemma {:induction false} CommittedIndicesBound(n: nat, oracle: Oracle)
    ensures forall k :: 0 <= k < |CommittedIndices(n, oracle)| ==> CommittedIndices(n, oracle)[k] < n
    ensures forall k :: 0 <= k < |CommittedIndices(n, oracle)| ==> oracle(CommittedIndices(n, oracle)[k]).Commit?
  {
    if n > 0 {
      CommittedIndicesBound(n - 1, oracle);
    }
  }
}
