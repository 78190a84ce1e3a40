/**
 * The `purchase_orders` table as the import uses it: the upsert by `po_number` of `bulkCreate`,
 * the completion predicate `checkIfComplete`, and the field guard of `updateProgress`.
 * The table is its rows in insertion order; ids are handed out from a serial counter.
 */
module PurchaseOrders {
  import opened Wrappers
  import opened ShippingTypes

  const Importada: string := "IMPORTADA"

  /** A row of `purchase_orders`. */
  datatype PoRecord = PoRecord(
    id: nat,
    poNumber: string,
    cantidadPares: int,
    cantidadCartones: int,
    cfmxfDate: string,
    estado: string,
    paresCompletados: int,
    cartonesCompletados: int)

  datatype PoTable = PoTable(rows: seq<PoRecord>, nextId: nat)

  /** What the table guarantees: `po_number` is unique, ids are unique and below the serial counter. */
  ghost predicate Valid(t: PoTable)
  {
    && (forall i, j :: 0 <= i < j < |t.rows| ==> t.rows[i].poNumber != t.rows[j].poNumber)
    && (forall i, j :: 0 <= i < j < |t.rows| ==> t.rows[i].id != t.rows[j].id)
    && (forall i :: 0 <= i < |t.rows| ==> t.rows[i].id < t.nextId)
  }

  /** The position of the row with this `po_number`. */
  function IndexOfPo(rows: seq<PoRecord>, poNumber: string): (r: Option<nat>)
    ensures r.Some? ==> r.value < |rows| && rows[r.value].poNumber == poNumber
    ensures r.None? ==> forall i :: 0 <= i < |rows| ==> rows[i].poNumber != poNumber
  {
    if rows == [] then None
    else if rows[0].poNumber == poNumber then Some(0)
    else match IndexOfPo(rows[1..], poNumber)
      case None => None
      case Some(j) => Some(j + 1)
  }

  /** The position of the row with this id. */
  function IndexOfId(rows: seq<PoRecord>, id: nat): (r: Option<nat>)
    ensures r.Some? ==> r.value < |rows| && rows[r.value].id == id
    ensures r.None? ==> forall i :: 0 <= i < |rows| ==> rows[i].id != id
  {
    if rows == [] then None
    else if rows[0].id == id then Some(0)
    else match IndexOfId(rows[1..], id)
      case None => None
      case Some(j) => Some(j + 1)
  }

  /** `findByPoNumber`. */
  function FindByPoNumber(t: PoTable, poNumber: string): Option<PoRecord>
  {
    match IndexOfPo(t.rows, poNumber)
    case None => None
    case Some(j) => Some(t.rows[j])
  }

  /**
   * The `INSERT ... ON CONFLICT (po_number) DO UPDATE` statement: a new number is appended in state
   * IMPORTADA with zeroed counters; an existing one gets its pairs, cartons and date overwritten
   * in place. Returns the table and the `RETURNING *` row.
   */
  function Upsert(t: PoTable, po: PoCandidate): (PoTable, PoRecord)
  {
    match IndexOfPo(t.rows, po.poNumber)
    case None =>
      var r := PoRecord(t.nextId, po.poNumber, po.cantidadPares, po.cantidadCartones, po.cfmxfDate, Importada, 0, 0);
      (PoTable(t.rows + [r], t.nextId + 1), r)
    case Some(j) =>
      var r := t.rows[j].(cantidadPares := po.cantidadPares, cantidadCartones := po.cantidadCartones,
                          cfmxfDate := po.cfmxfDate);
      (PoTable(t.rows[j := r], t.nextId), r)
  }

  /** A PO whose statement raised an error, with the error message. */
  datatype PoFailure = PoFailure(po: string, message: string)

  datatype PoBulkResult = PoBulkResult(table: PoTable, created: seq<PoRecord>, errors: seq<PoFailure>)

  /**
   * `bulkCreate`: every PO of the batch is attempted in order; the oracle decides whether the
   * statement for the k-th one commits or raises, and a raised error is recorded and skipped.
   */
  function BulkCreate(t: PoTable, pos: seq<PoCandidate>, oracle: Oracle): PoBulkResult
  {
    if pos == [] then PoBulkResult(t, [], [])
    else
      var k := |pos| - 1;
      var b := BulkCreate(t, pos[..k], oracle);
      match oracle(k)
      case Commit =>
        var (t', r) := Upsert(b.table, pos[k]);
        PoBulkResult(t', b.created + [r], b.errors)
      case Fail(message) => PoBulkResult(b.table, b.created, b.errors + [PoFailure(pos[k].poNumber, message)])
  }

  /** `checkIfComplete`: false for an unknown id, else both counters have reached their targets. */
  function CheckIfComplete(t: PoTable, id: nat): bool
  {
    match IndexOfId(t.rows, id)
    case None => false
    case Some(j) =>
      t.rows[j].paresCompletados >= t.rows[j].cantidadPares
      && t.rows[j].cartonesCompletados >= t.rows[j].cantidadCartones
  }

  /**
   * `updateProgress`: with neither counter given it throws; otherwise it sets the given counters on
   * the row with this id and returns that row (none when the id is unknown).
   */
  function UpdateProgress(t: PoTable, id: nat, paresCompletados: Option<int>, cartonesLigados: Option<int>)
    : Result<(PoTable, Option<PoRecord>), string>
  {
    if paresCompletados.None? && cartonesLigados.None? then Failure("No hay campos para actualizar")
    else match IndexOfId(t.rows, id)
      case None => Success((t, None))
      case Some(j) =>
        var r0 := t.rows[j];
        var r1 := if paresCompletados.Some? then r0.(paresCompletados := paresCompletados.value) else r0;
        var r := if cartonesLigados.Some? then r1.(cartonesCompletados := cartonesLigados.value) else r1;
        Success((t.(rows := t.rows[j := r]), Some(r)))
  }

  // ---------------------------------------------------------------------------------------------
  // Upsert.

  /** The upsert keeps `po_number` and ids unique. */
  lemma UpsertValid(t: PoTable, po: PoCandidate)
    requires Valid(t)
    ensures Valid(Upsert(t, po).0)
  {
    var t' := Upsert(t, po).0;
    match IndexOfPo(t.rows, po.poNumber)
    case None =>
      assert forall i :: 0 <= i < |t.rows| ==> t'.rows[i] == t.rows[i];
    case Some(j) =>
      assert forall i :: 0 <= i < |t.rows| && i != j ==> t'.rows[i] == t.rows[i];
  }

  /**
   * After the upsert the number has exactly one row, carrying the batch's pairs, cartons and date;
   * that row is the one returned.
   */
  lemma UpsertWrites(t: PoTable, po: PoCandidate)
    requires Valid(t)
    ensures var (t', r) := Upsert(t, po);
            && FindByPoNumber(t', po.poNumber) == Some(r)
            && r.poNumber == po.poNumber && r.cantidadPares == po.cantidadPares
            && r.cantidadCartones == po.cantidadCartones && r.cfmxfDate == po.cfmxfDate
            && (forall i, j :: (0 <= i < |t'.rows| && 0 <= j < |t'.rows| && t'.rows[i].poNumber == po.poNumber
                                && t'.rows[j].poNumber == po.poNumber) ==> i == j)
  {
    UpsertValid(t, po);
    var (t', r) := Upsert(t, po);
    match IndexOfPo(t.rows, po.poNumber)
    case None =>
      assert t'.rows[|t.rows|] == r;
      assert forall i :: 0 <= i < |t.rows| ==> t'.rows[i] == t.rows[i];
    case Some(j) =>
      assert t'.rows[j] == r;
  }

  /**
   * On conflict the existing row keeps its id, `estado` and progress counters and the table does
   * not grow; only a new number is inserted, in state IMPORTADA, at the end.
   */
  lemma UpsertConflictKeepsProgress(t: PoTable, po: PoCandidate)
    requires Valid(t)
    ensures var (t', r) := Upsert(t, po);
            match FindByPoNumber(t, po.poNumber)
            case Some(prev) =>
              && |t'.rows| == |t.rows|
              && r.id == prev.id && r.estado == prev.estado
              && r.paresCompletados == prev.paresCompletados && r.cartonesCompletados == prev.cartonesCompletados
            case None =>
              && t'.rows == t.rows + [r]
              && r.estado == Importada && r.paresCompletados == 0 && r.cartonesCompletados == 0
              && r.id !in set x | x in t.rows :: x.id
  {
  }

  /** Rows for other numbers are untouched by the upsert. */
  lemma UpsertOthersUnchanged(t: PoTable, po: PoCandidate, other: string)
    requires Valid(t) && other != po.poNumber
    ensures FindByPoNumber(Upsert(t, po).0, other) == FindByPoNumber(t, other)
  {
    UpsertValid(t, po);
    var t' := Upsert(t, po).0;
    if IndexOfPo(t.rows, po.poNumber).None? {
      assert forall i :: 0 <= i < |t.rows| ==> t'.rows[i] == t.rows[i];
    }
    if IndexOfPo(t.rows, other).Some? {
      var k := IndexOfPo(t.rows, other).value;
      assert t'.rows[k] == t.rows[k];
      IndexOfPoUnique(t'.rows, other, k);
    }
  }

  /** With unique numbers, the row found for a number is the only one carrying it. */
  lemma IndexOfPoUnique(rows: seq<PoRecord>, poNumber: string, k: nat)
    requires forall i, j :: 0 <= i < j < |rows| ==> rows[i].poNumber != rows[j].poNumber
    requires k < |rows| && rows[k].poNumber == poNumber
    ensures IndexOfPo(rows, poNumber) == Some(k)
  {
  }

  // ---------------------------------------------------------------------------------------------
  // Bulk insert.

  /**
   * Every PO of the batch is attempted: the created rows and the errors add up to the batch, the
   * table stays valid, and the k-th error names the PO of the k-th failed attempt with its message.
   */
  lemma {:induction false} BulkCreateAccounts(t: PoTable, pos: seq<PoCandidate>, oracle: Oracle)
    requires Valid(t)
    ensures var b := BulkCreate(t, pos, oracle);
            && |b.created| + |b.errors| == |pos|
            && |b.created| == |CommittedIndices(|pos|, oracle)|
            && |b.errors| == |FailedIndices(|pos|, oracle)|
            && Valid(b.table)
            && (forall k :: 0 <= k < |b.errors| ==>
                  var i := FailedIndices(|pos|, oracle)[k];
                  i < |pos| && oracle(i).Fail? && b.errors[k] == PoFailure(pos[i].poNumber, oracle(i).message))
            && (forall k :: 0 <= k < |b.created| ==>
                  var i := CommittedIndices(|pos|, oracle)[k];
                  i < |pos| && b.created[k].poNumber == pos[i].poNumber)
  {
    if pos != [] {
      var k := |pos| - 1;
      BulkCreateAccounts(t, pos[..k], oracle);
      FailedIndicesBound(k, oracle);
      CommittedIndicesBound(k, oracle);
      var b := BulkCreate(t, pos[..k], oracle);
      assert forall i :: 0 <= i < k ==> pos[..k][i] == pos[i];
      if oracle(k).Commit? {
        UpsertValid(b.table, pos[k]);
        UpsertWrites(b.table, pos[k]);
      }
    }
  }

  /** When every statement commits, the batch creates one row per PO, in batch order, and reports no error. */
  lemma {:induction false} BulkCreateAllCommitted(t: PoTable, pos: seq<PoCandidate>, oracle: Oracle)
    requires Valid(t)
    requires forall k :: 0 <= k < |pos| ==> oracle(k).Commit?
    ensures BulkCreate(t, pos, oracle).errors == []
    ensures |BulkCreate(t, pos, oracle).created| == |pos|
    ensures forall k :: 0 <= k < |pos| ==> BulkCreate(t, pos, oracle).created[k].poNumber == pos[k].poNumber
  {
    if pos != [] {
      var k := |pos| - 1;
      BulkCreateAllCommitted(t, pos[..k], oracle);
      assert forall i :: 0 <= i < k ==> pos[..k][i] == pos[i];
    }
  }

  /** The bulk insert keeps `po_number` and ids unique. */
  lemma {:induction false} BulkCreateValid(t: PoTable, pos: seq<PoCandidate>, oracle: Oracle)
    requires Valid(t)
    ensures Valid(BulkCreate(t, pos, oracle).table)
  {
    if pos != [] {
      var k := |pos| - 1;
      BulkCreateValid(t, pos[..k], oracle);
      if oracle(k).Commit? {
        UpsertValid(BulkCreate(t, pos[..k], oracle).table, pos[k]);
      }
    }
  }

  /** Every number of the batch with a committed statement has a row afterwards. */
  lemma {:induction false} BulkCreateStored(t: PoTable, pos: seq<PoCandidate>, oracle: Oracle, k: nat)
    requires Valid(t) && k < |pos| && oracle(k).Commit?
    ensures FindByPoNumber(BulkCreate(t, pos, oracle).table, pos[k].poNumber).Some?
  {
    var n := |pos| - 1;
    var b := BulkCreate(t, pos[..n], oracle);
    BulkCreateValid(t, pos[..n], oracle);
    if k < n {
      assert pos[..n][k] == pos[k];
      BulkCreateStored(t, pos[..n], oracle, k);
      if oracle(n).Commit? {
        if pos[n].poNumber != pos[k].poNumber {
          UpsertOthersUnchanged(b.table, pos[n], pos[k].poNumber);
        } else {
          UpsertWrites(b.table, pos[n]);
        }
      }
    } else {
      UpsertWrites(b.table, pos[n]);
    }
  }

  // ---------------------------------------------------------------------------------------------
  // Progress.

  /**
   * `checkIfComplete` holds exactly when a row with the id exists and both counters have reached
   * their targets; an unknown id is never complete.
   */
  lemma CheckIfCompleteMeaning(t: PoTable, id: nat)
    requires Valid(t)
    ensures CheckIfComplete(t, id) <==>
              exists i :: 0 <= i < |t.rows| && t.rows[i].id == id
                          && t.rows[i].paresCompletados >= t.rows[i].cantidadPares
                          && t.rows[i].cartonesCompletados >= t.rows[i].cantidadCartones
    ensures (forall i :: 0 <= i < |t.rows| ==> t.rows[i].id != id) ==> !CheckIfComplete(t, id)
  {
    match IndexOfId(t.rows, id)
    case None =>
    case Some(j) =>
      assert forall i :: 0 <= i < |t.rows| && t.rows[i].id == id ==> i == j;
  }

  /** `updateProgress` throws exactly when neither counter is given. */
  lemma UpdateProgressEffect(t: PoTable, id: nat, pares: Option<int>, cartones: Option<int>)
    requires Valid(t)
    ensures UpdateProgress(t, id, pares, cartones).Failure? <==> pares.None? && cartones.None?
  {
  }

  /**
   * With a counter given, `updateProgress` changes only the given counters of the row with the id,
   * leaving every other row and column as it was.
   */
  lemma UpdateProgressWrites(t: PoTable, id: nat, pares: Option<int>, cartones: Option<int>)
    requires Valid(t)
    ensures UpdateProgress(t, id, pares, cartones).Success? ==>
              var (t', r) := UpdateProgress(t, id, pares, cartones).value;
              && |t'.rows| == |t.rows|
              && (forall i :: 0 <= i < |t.rows| && t.rows[i].id != id ==> t'.rows[i] == t.rows[i])
              && (forall i :: 0 <= i < |t.rows| && t.rows[i].id == id ==>
                    && r == Some(t'.rows[i])
                    && t'.rows[i].paresCompletados == (if pares.Some? then pares.value else t.rows[i].paresCompletados)
                    && t'.rows[i].cartonesCompletados == (if cartones.Some? then cartones.value else t.rows[i].cartonesCompletados)
                    && t'.rows[i] == t.rows[i].(paresCompletados := t'.rows[i].paresCompletados,
                                                cartonesCompletados := t'.rows[i].cartonesCompletados))
  {
    if pares.Some? || cartones.Some? {
      match IndexOfId(t.rows, id)
      case None =>
      case Some(j) =>
        var t' := UpdateProgress(t, id, pares, cartones).value.0;
        assert forall i :: 0 <= i < |t.rows| && t.rows[i].id == id ==> i == j;
        assert forall i :: 0 <= i < |t.rows| && i != j ==> t'.rows[i] == t.rows[i];
    }
  }

  /** `updateProgress` keeps `po_number` and ids unique. */
  lemma UpdateProgressValid(t: PoTable, id: nat, pares: Option<int>, cartones: Option<int>)
    requires Valid(t)
    ensures UpdateProgress(t, id, pares, cartones).Success? ==> Valid(UpdateProgress(t, id, pares, cartones).value.0)
  {
    if UpdateProgress(t, id, pares, cartones).Success? && IndexOfId(t.rows, id).Some? {
      var j := IndexOfId(t.rows, id).value;
      var t' := UpdateProgress(t, id, pares, cartones).value.0;
      assert forall i :: 0 <= i < |t.rows| ==> t'.rows[i].id == t.rows[i].id && t'.rows[i].poNumber == t.rows[i].poNumber;
    }
  }

  /** Setting both counters to their targets makes the PO complete. */
  lemma ProgressToTargetCompletes(t: PoTable, id: nat)
    requires Valid(t)
    requires exists i :: 0 <= i < |t.rows| && t.rows[i].id == id
    ensures var j := IndexOfId(t.rows, id).value;
            var (t', _) := UpdateProgress(t, id, Some(t.rows[j].cantidadPares), Some(t.rows[j].cantidadCartones)).value;
            CheckIfComplete(t', id)
  {
    var j := IndexOfId(t.rows, id).value;
    var t' := UpdateProgress(t, id, Some(t.rows[j].cantidadPares), Some(t.rows[j].cantidadCartones)).value.0;
    UpdateProgressWrites(t, id, Some(t.rows[j].cantidadPares), Some(t.rows[j].cantidadCartones));
    UpdateProgressValid(t, id, Some(t.rows[j].cantidadPares), Some(t.rows[j].cantidadCartones));
    CheckIfCompleteMeaning(t', id);
  }
}
