/**
 * The per-row loops of `parseShippingExcel`: column resolution through alias lists, the field
 * checks of the "PO" and "Cartones" sheets, and the sheet-presence check. Reading the workbook
 * and converting cells are abstracted into the `Cell` each value yields.
 */
module ExcelShippingParser {
  import opened Wrappers
  import opened Text
  import opened ShippingTypes

  /**
   * A cell value as the row loop sees it: `String(value)`, what `parseInt(value)` gives (None for
   * NaN), and what the date conversion gives (the ISO string, or the message it throws).
   */
  datatype Cell = Cell(text: string, integer: Option<int>, fecha: Result<string, string>)

  /** A data row: its (header, value) pairs in the row object's key order. */
  type Row = seq<(string, Cell)>

  /** A workbook: its sheets by name. */
  datatype Workbook = Workbook(sheets: map<string, seq<Row>>)

  /** The parse of a workbook with both sheets: records of both sheets and every row error. */
  datatype ParsedShipping = ParsedShipping(pos: seq<PoCandidate>, cartones: seq<CartonCandidate>, errores: seq<RowError>)

  /** Why the whole parse is aborted. */
  datatype ParseFailure = MissingSheet(name: string)

  /** The records and row errors of one sheet. */
  datatype SheetResult<T> = SheetResult(records: seq<T>, errores: seq<RowError>)

  const PoNumberAliases: seq<string> := ["ponumber", "po_number", "po number", "po"]
  const CantidadParesAliases: seq<string> := ["cantidadpares", "cantidad_pares", "cantidad pares", "pares"]
  const CantidadCartonesAliases: seq<string> := ["cantidadcartones", "cantidad_cartones", "cantidad cartones", "cartones"]
  const CfmxfDateAliases: seq<string> := ["cfmxfdate", "cfmxf_date", "cfmxf date", "fecha"]
  const CartonIdAliases: seq<string> := ["cartonid", "carton_id", "carton id", "carton"]
  const SkuAliases: seq<string> := ["sku", "style"]
  const CantidadAliases: seq<string> := ["cantidadporcarton", "cantidad_por_carton", "cantidad por carton", "cantidad"]

  /** A header as it is compared with an alias list: lower-cased, then trimmed. */
  function HeaderKey(h: string): string
  {
    Trim(ToLower(h))
  }

  /** The headers of a row as they are compared with alias lists, in key order. */
  function HeaderKeys(row: Row): (r: seq<string>)
    ensures |r| == |row|
  {
    seq(|row|, m requires 0 <= m < |row| => HeaderKey(row[m].0))
  }

  /** The position of the first key that is one of `names`. */
  function FirstIn(keys: seq<string>, names: seq<string>): (r: Option<nat>)
    ensures r.Some? ==> r.value < |keys|
  {
    if keys == [] then None
    else if keys[0] in names then Some(0)
    else match FirstIn(keys[1..], names)
      case None => None
      case Some(j) => Some(j + 1)
  }

  /** `findKey`: the position of the first header, in key order, whose key is one of `names`. */
  function FindKey(row: Row, names: seq<string>): (r: Option<nat>)
    ensures r.Some? ==> r.value < |row|
  {
    FirstIn(HeaderKeys(row), names)
  }

  /** The value under the header `FindKey` found. */
  function Lookup(row: Row, names: seq<string>): Option<Cell>
  {
    match FindKey(row, names)
    case None => None
    case Some(j) => Some(row[j].1)
  }

  /** The four cells of a "PO" row. */
  datatype PoCells = PoCells(poNumber: Cell, pares: Cell, cartones: Cell, fecha: Cell)

  /** The four cells of a "Cartones" row. */
  datatype CartonCells = CartonCells(cartonId: Cell, sku: Cell, cantidad: Cell, poNumber: Cell)

  function ResolvePoCells(row: Row): Option<PoCells>
  {
    match (Lookup(row, PoNumberAliases), Lookup(row, CantidadParesAliases),
           Lookup(row, CantidadCartonesAliases), Lookup(row, CfmxfDateAliases))
    case (Some(a), Some(b), Some(c), Some(d)) => Some(PoCells(a, b, c, d))
    case _ => None
  }

  function ResolveCartonCells(row: Row): Option<CartonCells>
  {
    match (Lookup(row, CartonIdAliases), Lookup(row, SkuAliases),
           Lookup(row, CantidadAliases), Lookup(row, PoNumberAliases))
    case (Some(a), Some(b), Some(c), Some(d)) => Some(CartonCells(a, b, c, d))
    case _ => None
  }

  /** A count cell passes when `parseInt` gives a number above zero. */
  predicate PositiveCount(c: Cell)
  {
    c.integer.Some? && c.integer.value > 0
  }

  /** The body of the "PO" loop for the row at index `i`. */
  function ParsePoRow(row: Row, i: nat): Result<PoCandidate, RowError>
  {
    var fila := i + 2;
    match ResolvePoCells(row)
    case None => Failure(RowError(fila, PoSheet, None, None, MissingColumns))
    case Some(cells) =>
      var poNumber := Trim(cells.poNumber.text);
      if poNumber == "" then Failure(RowError(fila, PoSheet, None, None, EmptyPoNumber))
      else if !PositiveCount(cells.pares) then Failure(RowError(fila, PoSheet, Some(poNumber), None, InvalidPairs))
      else if !PositiveCount(cells.cartones) then Failure(RowError(fila, PoSheet, Some(poNumber), None, InvalidCartonCount))
      else match cells.fecha.fecha
        case Failure(message) => Failure(RowError(fila, PoSheet, None, None, RowException(message)))
        case Success(date) =>
          Success(PoCandidate(poNumber, cells.pares.integer.value, cells.cartones.integer.value, date))
  }

  /** The body of the "Cartones" loop for the row at index `i`. */
  function ParseCartonRow(row: Row, i: nat): Result<CartonCandidate, RowError>
  {
    var fila := i + 2;
    match ResolveCartonCells(row)
    case None => Failure(RowError(fila, CartonesSheet, None, None, MissingColumns))
    case Some(cells) =>
      var cartonId := Trim(cells.cartonId.text);
      var sku := Trim(cells.sku.text);
      var poNumber := Trim(cells.poNumber.text);
      if cartonId == "" then Failure(RowError(fila, CartonesSheet, None, None, EmptyCartonId))
      else if sku == "" then Failure(RowError(fila, CartonesSheet, None, Some(cartonId), EmptySku))
      else if !PositiveCount(cells.cantidad) then Failure(RowError(fila, CartonesSheet, None, Some(cartonId), InvalidQuantity))
      else if poNumber == "" then Failure(RowError(fila, CartonesSheet, None, Some(cartonId), EmptyPoNumber))
      else Success(CartonCandidate(cartonId, sku, cells.cantidad.integer.value, poNumber))
  }

  /** One sheet's loop: every row yields a record or a row error, in row order. */
  function ParseSheet<T>(rows: seq<Row>, parse: (Row, nat) -> Result<T, RowError>): SheetResult<T>
  {
    if rows == [] then SheetResult([], [])
    else
      var s := ParseSheet(rows[..|rows| - 1], parse);
      match parse(rows[|rows| - 1], |rows| - 1)
      case Success(x) => SheetResult(s.records + [x], s.errores)
      case Failure(e) => SheetResult(s.records, s.errores + [e])
  }

  /** `parseShippingExcel` past the workbook read: both sheets must exist, "PO" is checked first. */
  function ParseShippingExcel(wb: Workbook): Result<ParsedShipping, ParseFailure>
  {
    if "PO" !in wb.sheets then Failure(MissingSheet("PO"))
    else if "Cartones" !in wb.sheets then Failure(MissingSheet("Cartones"))
    else
      var p := ParseSheet(wb.sheets["PO"], ParsePoRow);
      var c := ParseSheet(wb.sheets["Cartones"], ParseCartonRow);
      Success(ParsedShipping(p.records, c.records, p.errores + c.errores))
  }

  // ---------------------------------------------------------------------------------------------
  // Reference traces: which rows produced records and which produced errors.

  /** The indices of the rows that produced a record, ascending. */
  function RecordRows<T>(rows: seq<Row>, parse: (Row, nat) -> Result<T, RowError>): seq<nat>
  {
    if rows == [] then []
    else
      var s := RecordRows(rows[..|rows| - 1], parse);
      if parse(rows[|rows| - 1], |rows| - 1).Success? then s + [|rows| - 1] else s
  }

  /** The indices of the rows that produced an error, ascending. */
  function ErrorRows<T>(rows: seq<Row>, parse: (Row, nat) -> Result<T, RowError>): seq<nat>
  {
    if rows == [] then []
    else
      var s := ErrorRows(rows[..|rows| - 1], parse);
      if parse(rows[|rows| - 1], |rows| - 1).Failure? then s + [|rows| - 1] else s
  }

  predicate Increasing(s: seq<nat>)
  {
    forall a, b :: 0 <= a < b < |s| ==> s[a] < s[b]
  }

  // ---------------------------------------------------------------------------------------------
  // Column lookup.

  /** No header of the row, lower-cased and trimmed, is one of `names`. */
  predicate NoHeaderFor(row: Row, names: seq<string>)
  {
    forall m :: 0 <= m < |row| ==> HeaderKeys(row)[m] !in names
  }

  /** The position `FirstIn` gives holds an alias and no earlier key does. */
  lemma {:induction false} FirstInFirst(keys: seq<string>, names: seq<string>)
    requires FirstIn(keys, names).Some?
    ensures keys[FirstIn(keys, names).value] in names
    ensures forall m :: 0 <= m < FirstIn(keys, names).value ==> keys[m] !in names
  {
    if keys[0] !in names {
      FirstInFirst(keys[1..], names);
      assert forall m :: 0 < m < |keys| ==> keys[m] == keys[1..][m - 1];
    }
  }

  /** `FirstIn` finds nothing exactly when no key is an alias. */
  lemma {:induction false} FirstInNone(keys: seq<string>, names: seq<string>)
    ensures FirstIn(keys, names).None? <==> forall m :: 0 <= m < |keys| ==> keys[m] !in names
  {
    if keys != [] && keys[0] !in names {
      FirstInNone(keys[1..], names);
      assert forall m :: 0 < m < |keys| ==> keys[m] == keys[1..][m - 1];
    }
  }

  /** `findKey` returns the first header, in key order, whose lower-cased trimmed form is an alias. */
  lemma FindKeyFirst(row: Row, names: seq<string>)
    requires FindKey(row, names).Some?
    ensures HeaderKey(row[FindKey(row, names).value].0) in names
    ensures forall m :: 0 <= m < FindKey(row, names).value ==> HeaderKey(row[m].0) !in names
  {
    var keys := HeaderKeys(row);
    FirstInFirst(keys, names);
    forall m | 0 <= m < FindKey(row, names).value
      ensures HeaderKey(row[m].0) !in names
    {
      assert keys[m] == HeaderKey(row[m].0);
    }
  }

  /** `findKey` finds nothing exactly when no header is an alias. */
  lemma FindKeyNone(row: Row, names: seq<string>)
    ensures FindKey(row, names).None? <==> NoHeaderFor(row, names)
  {
    FirstInNone(HeaderKeys(row), names);
  }

  /** A header matches an alias regardless of the case of its letters. */
  lemma HeaderCaseInsensitive(h: string)
    ensures HeaderKey(ToUpper(h)) == HeaderKey(h)
  {
    assert forall i :: 0 <= i < |h| ==> LowerChar(UpperChar(h[i])) == LowerChar(h[i]);
    assert ToLower(ToUpper(h)) == ToLower(h);
  }

  /** A "PO" row lacks a column exactly when one of its four alias lists matches no header. */
  lemma PoColumnsMissing(row: Row)
    ensures ResolvePoCells(row).None? <==>
              || NoHeaderFor(row, PoNumberAliases) || NoHeaderFor(row, CantidadParesAliases)
              || NoHeaderFor(row, CantidadCartonesAliases) || NoHeaderFor(row, CfmxfDateAliases)
  {
    FindKeyNone(row, PoNumberAliases);
    FindKeyNone(row, CantidadParesAliases);
    FindKeyNone(row, CantidadCartonesAliases);
    FindKeyNone(row, CfmxfDateAliases);
  }

  /** A "Cartones" row lacks a column exactly when one of its four alias lists matches no header. */
  lemma CartonColumnsMissing(row: Row)
    ensures ResolveCartonCells(row).None? <==>
              || NoHeaderFor(row, CartonIdAliases) || NoHeaderFor(row, SkuAliases)
              || NoHeaderFor(row, CantidadAliases) || NoHeaderFor(row, PoNumberAliases)
  {
    FindKeyNone(row, CartonIdAliases);
    FindKeyNone(row, SkuAliases);
    FindKeyNone(row, CantidadAliases);
    FindKeyNone(row, PoNumberAliases);
  }

  // ---------------------------------------------------------------------------------------------
  // Row checks.

  /**
   * A "PO" row yields a record exactly when its columns resolve, the trimmed PO number is
   * non-empty, both counts are positive and the date converts; the record carries those values.
   * An error names the first check that failed: every earlier check passed.
   */
  lemma PoRowOutcome(row: Row, i: nat)
    ensures var r := ParsePoRow(row, i);
            && (r.Success? <==>
                  && ResolvePoCells(row).Some?
                  && Trim(ResolvePoCells(row).value.poNumber.text) != ""
                  && PositiveCount(ResolvePoCells(row).value.pares)
                  && PositiveCount(ResolvePoCells(row).value.cartones)
                  && ResolvePoCells(row).value.fecha.fecha.Success?)
            && (r.Success? ==>
                  && r.value.poNumber == Trim(ResolvePoCells(row).value.poNumber.text)
                  && r.value.cantidadPares == ResolvePoCells(row).value.pares.integer.value > 0
                  && r.value.cantidadCartones == ResolvePoCells(row).value.cartones.integer.value > 0
                  && r.value.cfmxfDate == ResolvePoCells(row).value.fecha.fecha.value)
            && (r.Failure? ==> r.error.fila == i + 2 && r.error.hoja == PoSheet && r.error.cartonId.None?)
            && (r.Failure? && r.error.kind != MissingColumns ==> ResolvePoCells(row).Some?)
            && (r.Failure? && r.error.kind in {InvalidPairs, InvalidCartonCount} ==>
                  r.error.poNumber == Some(Trim(ResolvePoCells(row).value.poNumber.text)) && r.error.poNumber.value != "")
            && (r.Failure? && r.error.kind == InvalidCartonCount ==> PositiveCount(ResolvePoCells(row).value.pares))
            && (r.Failure? && r.error.kind.RowException? ==>
                  && Trim(ResolvePoCells(row).value.poNumber.text) != ""
                  && PositiveCount(ResolvePoCells(row).value.pares)
                  && PositiveCount(ResolvePoCells(row).value.cartones)
                  && ResolvePoCells(row).value.fecha.fecha == Failure(r.error.kind.message))
            && (r.Failure? ==> r.error.kind in {MissingColumns, EmptyPoNumber, InvalidPairs, InvalidCartonCount}
                               || r.error.kind.RowException?)
    ensures var r := ParsePoRow(row, i);
            && (r.Failure? && r.error.kind == MissingColumns ==> ResolvePoCells(row).None?)
            && (r.Failure? && r.error.kind == EmptyPoNumber ==> Trim(ResolvePoCells(row).value.poNumber.text) == "")
            && (r.Failure? && r.error.kind == InvalidPairs ==> !PositiveCount(ResolvePoCells(row).value.pares))
            && (r.Failure? && r.error.kind == InvalidCartonCount ==> !PositiveCount(ResolvePoCells(row).value.cartones))
  {
  }

  /**
   * A "Cartones" row yields a record exactly when its columns resolve, the trimmed carton id, SKU
   * and PO number are non-empty and the quantity is positive. Checks run in the order carton id,
   * SKU, quantity, PO number, and an error names the first that failed: its own check failed and
   * every earlier one passed.
   */
  lemma CartonRowOutcome(row: Row, i: nat)
    ensures var r := ParseCartonRow(row, i);
            && (r.Success? <==>
                  && ResolveCartonCells(row).Some?
                  && Trim(ResolveCartonCells(row).value.cartonId.text) != ""
                  && Trim(ResolveCartonCells(row).value.sku.text) != ""
                  && PositiveCount(ResolveCartonCells(row).value.cantidad)
                  && Trim(ResolveCartonCells(row).value.poNumber.text) != "")
            && (r.Success? ==>
                  && r.value.cartonId == Trim(ResolveCartonCells(row).value.cartonId.text)
                  && r.value.sku == Trim(ResolveCartonCells(row).value.sku.text)
                  && r.value.cantidadPorCarton == ResolveCartonCells(row).value.cantidad.integer.value > 0
                  && r.value.poNumber == Trim(ResolveCartonCells(row).value.poNumber.text))
            && (r.Failure? ==> r.error.fila == i + 2 && r.error.hoja == CartonesSheet && r.error.poNumber.None?)
            && (r.Failure? ==> r.error.kind in {MissingColumns, EmptyCartonId, EmptySku, InvalidQuantity, EmptyPoNumber})
            && (r.Failure? && r.error.kind in {EmptySku, InvalidQuantity, EmptyPoNumber} ==>
                  && ResolveCartonCells(row).Some?
                  && r.error.cartonId == Some(Trim(ResolveCartonCells(row).value.cartonId.text))
                  && r.error.cartonId.value != "")
            && (r.Failure? && r.error.kind in {InvalidQuantity, EmptyPoNumber} ==>
                  Trim(ResolveCartonCells(row).value.sku.text) != "")
            && (r.Failure? && r.error.kind == EmptyPoNumber ==> PositiveCount(ResolveCartonCells(row).value.cantidad))
    ensures var r := ParseCartonRow(row, i);
            && (r.Failure? && r.error.kind == MissingColumns ==> ResolveCartonCells(row).None?)
            && (r.Failure? && r.error.kind == EmptyCartonId ==>
                  ResolveCartonCells(row).Some? && Trim(ResolveCartonCells(row).value.cartonId.text) == "")
            && (r.Failure? && r.error.kind == EmptySku ==> Trim(ResolveCartonCells(row).value.sku.text) == "")
            && (r.Failure? && r.error.kind == InvalidQuantity ==> !PositiveCount(ResolveCartonCells(row).value.cantidad))
            && (r.Failure? && r.error.kind == EmptyPoNumber ==> Trim(ResolveCartonCells(row).value.poNumber.text) == "")
  {
  }

  // ---------------------------------------------------------------------------------------------
  // Sheet loops.

  /** Every row yields exactly one outcome: records plus errors is the number of rows. */
  lemma {:induction false} ParseSheetCount<T>(rows: seq<Row>, parse: (Row, nat) -> Result<T, RowError>)
    ensures |ParseSheet(rows, parse).records| + |ParseSheet(rows, parse).errores| == |rows|
  {
    if rows != [] {
      ParseSheetCount(rows[..|rows| - 1], parse);
    }
  }

  /**
   * The records are the values of the rows that parsed, in row order: the trace lists those rows
   * ascending, and a row is in it exactly when it parsed.
   */
  lemma {:induction false} ParseSheetRecords<T>(rows: seq<Row>, parse: (Row, nat) -> Result<T, RowError>)
    ensures var s := ParseSheet(rows, parse);
            var ok := RecordRows(rows, parse);
            && |ok| == |s.records| && Increasing(ok)
            && (forall k :: 0 <= k < |ok| ==> ok[k] < |rows| && parse(rows[ok[k]], ok[k]) == Success(s.records[k]))
            && (forall i :: 0 <= i < |rows| ==> (i in ok <==> parse(rows[i], i).Success?))
  {
    if rows != [] {
      var prefix := rows[..|rows| - 1];
      ParseSheetRecords(prefix, parse);
      assert forall i :: 0 <= i < |prefix| ==> prefix[i] == rows[i];
    }
  }

  /**
   * The errors are those of the rows that did not parse, in row order: the trace lists those rows
   * ascending, and a row is in it exactly when it failed.
   */
  lemma {:induction false} ParseSheetErrors<T>(rows: seq<Row>, parse: (Row, nat) -> Result<T, RowError>)
    ensures var s := ParseSheet(rows, parse);
            var bad := ErrorRows(rows, parse);
            && |bad| == |s.errores| && Increasing(bad)
            && (forall k :: 0 <= k < |bad| ==> bad[k] < |rows| && parse(rows[bad[k]], bad[k]) == Failure(s.errores[k]))
            && (forall i :: 0 <= i < |rows| ==> (i in bad <==> parse(rows[i], i).Failure?))
  {
    if rows != [] {
      var prefix := rows[..|rows| - 1];
      ParseSheetErrors(prefix, parse);
      assert forall i :: 0 <= i < |prefix| ==> prefix[i] == rows[i];
    }
  }

  /** Every error of a "PO" sheet names that sheet and the spreadsheet row `index + 2` of its row. */
  lemma PoSheetErrorRows(rows: seq<Row>)
    ensures |ErrorRows(rows, ParsePoRow)| == |ParseSheet(rows, ParsePoRow).errores|
    ensures var bad := ErrorRows(rows, ParsePoRow);
            forall k :: 0 <= k < |ParseSheet(rows, ParsePoRow).errores| ==>
              ParseSheet(rows, ParsePoRow).errores[k].hoja == PoSheet
              && ParseSheet(rows, ParsePoRow).errores[k].fila == bad[k] + 2
  {
    ParseSheetErrors(rows, ParsePoRow);
    forall k | 0 <= k < |ParseSheet(rows, ParsePoRow).errores|
      ensures ParseSheet(rows, ParsePoRow).errores[k].hoja == PoSheet
      ensures ParseSheet(rows, ParsePoRow).errores[k].fila == ErrorRows(rows, ParsePoRow)[k] + 2
    {
      var j := ErrorRows(rows, ParsePoRow)[k];
      PoRowOutcome(rows[j], j);
    }
  }

  /** Every error of a "Cartones" sheet names that sheet and the spreadsheet row `index + 2` of its row. */
  lemma CartonSheetErrorRows(rows: seq<Row>)
    ensures |ErrorRows(rows, ParseCartonRow)| == |ParseSheet(rows, ParseCartonRow).errores|
    ensures var bad := ErrorRows(rows, ParseCartonRow);
            forall k :: 0 <= k < |ParseSheet(rows, ParseCartonRow).errores| ==>
              ParseSheet(rows, ParseCartonRow).errores[k].hoja == CartonesSheet
              && ParseSheet(rows, ParseCartonRow).errores[k].fila == bad[k] + 2
  {
    ParseSheetErrors(rows, ParseCartonRow);
    forall k | 0 <= k < |ParseSheet(rows, ParseCartonRow).errores|
      ensures ParseSheet(rows, ParseCartonRow).errores[k].hoja == CartonesSheet
      ensures ParseSheet(rows, ParseCartonRow).errores[k].fila == ErrorRows(rows, ParseCartonRow)[k] + 2
    {
      var j := ErrorRows(rows, ParseCartonRow)[k];
      CartonRowOutcome(rows[j], j);
    }
  }

  // ---------------------------------------------------------------------------------------------
  // The whole parse.

  /**
   * A missing sheet aborts the parse instead of producing row errors, "PO" being checked first;
   * with both sheets present the parse succeeds.
   */
  lemma MissingSheetAborts(wb: Workbook)
    ensures ParseShippingExcel(wb).Failure? <==> "PO" !in wb.sheets || "Cartones" !in wb.sheets
    ensures "PO" !in wb.sheets ==> ParseShippingExcel(wb) == Failure(MissingSheet("PO"))
    ensures "PO" in wb.sheets && "Cartones" !in wb.sheets ==> ParseShippingExcel(wb) == Failure(MissingSheet("Cartones"))
  {
  }

  /**
   * A successful parse accounts for every data row once, lists the "PO" sheet's errors before the
   * "Cartones" sheet's, and emits only records that passed their checks.
   */
  lemma ParsedShippingShape(wb: Workbook)
    requires "PO" in wb.sheets && "Cartones" in wb.sheets
    ensures var p := ParseShippingExcel(wb).value;
            && |p.pos| + |p.cartones| + |p.errores| == |wb.sheets["PO"]| + |wb.sheets["Cartones"]|
            && (forall k :: 0 <= k < |p.errores| ==>
                  (p.errores[k].hoja == PoSheet <==> k < |ParseSheet(wb.sheets["PO"], ParsePoRow).errores|))
            && (forall po :: po in p.pos ==> po.poNumber != "" && po.cantidadPares > 0 && po.cantidadCartones > 0)
            && (forall c :: c in p.cartones ==>
                  c.cartonId != "" && c.sku != "" && c.poNumber != "" && c.cantidadPorCarton > 0)
  {
    var poRows := wb.sheets["PO"];
    var cartonRows := wb.sheets["Cartones"];
    var ps := ParseSheet(poRows, ParsePoRow);
    var cs := ParseSheet(cartonRows, ParseCartonRow);
    ParseSheetCount(poRows, ParsePoRow);
    ParseSheetCount(cartonRows, ParseCartonRow);
    PoSheetErrorRows(poRows);
    CartonSheetErrorRows(cartonRows);
    ParseSheetRecords(poRows, ParsePoRow);
    ParseSheetRecords(cartonRows, ParseCartonRow);
    forall po | po in ps.records
      ensures po.poNumber != "" && po.cantidadPares > 0 && po.cantidadCartones > 0
    {
      var k :| 0 <= k < |ps.records| && ps.records[k] == po;
      var j := RecordRows(poRows, ParsePoRow)[k];
      PoRowOutcome(poRows[j], j);
    }
    forall c | c in cs.records
      ensures c.cartonId != "" && c.sku != "" && c.poNumber != "" && c.cantidadPorCarton > 0
    {
      var k :| 0 <= k < |cs.records| && cs.records[k] == c;
      var j := RecordRows(cartonRows, ParseCartonRow)[k];
      CartonRowOutcome(cartonRows[j], j);
    }
  }
}
