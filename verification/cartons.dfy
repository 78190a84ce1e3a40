/**
 * The `po_cartones` table: one line per (carton, SKU) of an imported manifest. Models the bulk
 * insert of the import, the MUSICAL test, MUSICAL completion, linking a carton to a box, and the
 * distinct-carton count per PO and state.
 */
module Cartons {
  import opened Wrappers
  import opened ShippingTypes
  import CartonClassifier

  const Pendiente: string := "PENDIENTE"
  const Completado: string := "COMPLETADO"

  /** A row of `po_cartones`. */
  datatype CartonLine = CartonLine(
    id: nat,
    poId: nat,
    numeroCarton: string,
    sku: string,
    cantidadParesEsperados: int,
    estado: string,
    cajaId: Option<string>)

  datatype CartonTable = CartonTable(lines: seq<CartonLine>, nextId: nat)

  /** A carton line of the manifest with the id of the PO it was attached to. */
  datatype CartonInsert = CartonInsert(poId: nat, cartonId: string, sku: string, cantidadPorCarton: int)

  /** A line whose insert raised an error, with the error message. */
  datatype CartonFailure = CartonFailure(cartonId: string, message: string)

  datatype CartonBulkResult = CartonBulkResult(table: CartonTable, created: seq<CartonLine>, errors: seq<CartonFailure>)

  /** The line an insert of `c` stores: a fresh id, state PENDIENTE, no box. */
  function NewLine(id: nat, c: CartonInsert): CartonLine
  {
    CartonLine(id, c.poId, c.cartonId, c.sku, c.cantidadPorCarton, Pendiente, None)
  }

  /**
   * `bulkCreate`: every line is inserted in order; the oracle decides whether the k-th insert
   * commits or raises, and a raised error is recorded with the carton id and skipped.
   */
  function BulkCreate(t: CartonTable, cartones: seq<CartonInsert>, oracle: Oracle): CartonBulkResult
  {
    if cartones == [] then CartonBulkResult(t, [], [])
    else
      var k := |cartones| - 1;
      var b := BulkCreate(t, cartones[..k], oracle);
      match oracle(k)
      case Commit =>
        var line := NewLine(b.table.nextId, cartones[k]);
        CartonBulkResult(CartonTable(b.table.lines + [line], b.table.nextId + 1), b.created + [line], b.errors)
      case Fail(message) =>
        CartonBulkResult(b.table, b.created, b.errors + [CartonFailure(cartones[k].cartonId, message)])
  }

  /** The distinct SKUs of the lines of carton `n`. */
  function LineSkus(lines: seq<CartonLine>, n: string): set<string>
  {
    set l | l in lines && l.numeroCarton == n :: l.sku
  }

  /** `isMusicale`: `COUNT(DISTINCT sku) > 1` over the lines of the carton. */
  function IsMusicale(t: CartonTable, n: string): bool
  {
    |LineSkus(t.lines, n)| > 1
  }

  /** How many lines the carton has. */
  function CountLines(lines: seq<CartonLine>, n: string): nat
  {
    if lines == [] then 0
    else (if lines[0].numeroCarton == n then 1 else 0) + CountLines(lines[1..], n)
  }

  /** How many lines of the carton are COMPLETADO. */
  function CountCompleted(lines: seq<CartonLine>, n: string): nat
  {
    if lines == [] then 0
    else (if lines[0].numeroCarton == n && lines[0].estado == Completado then 1 else 0) + CountCompleted(lines[1..], n)
  }

  /** `checkMusicalComplete`: the carton's line count equals its COMPLETADO line count. */
  function CheckMusicalComplete(t: CartonTable, n: string): bool
  {
    CountLines(t.lines, n) == CountCompleted(t.lines, n)
  }

  /** `completeMusical`: every line of the carton becomes COMPLETADO; returns the updated lines. */
  function CompleteMusical(t: CartonTable, n: string): (CartonTable, seq<CartonLine>)
  {
    var lines := seq(|t.lines|, i requires 0 <= i < |t.lines| =>
                       if t.lines[i].numeroCarton == n then t.lines[i].(estado := Completado) else t.lines[i]);
    (t.(lines := lines), LinesOf(lines, n))
  }

  /**
   * `ligarCaja`: every line of the carton gets the box and becomes COMPLETADO; returns the first
   * updated line, if any.
   */
  function LigarCaja(t: CartonTable, n: string, cajaId: string): (CartonTable, Option<CartonLine>)
  {
    var lines := seq(|t.lines|, i requires 0 <= i < |t.lines| =>
                       if t.lines[i].numeroCarton == n then t.lines[i].(cajaId := Some(cajaId), estado := Completado)
                       else t.lines[i]);
    var updated := LinesOf(lines, n);
    (t.(lines := lines), if updated == [] then None else Some(updated[0]))
  }

  /** The lines of carton `n`, in table order. */
  function LinesOf(lines: seq<CartonLine>, n: string): seq<CartonLine>
  {
    if lines == [] then []
    else (if lines[0].numeroCarton == n then [lines[0]] else []) + LinesOf(lines[1..], n)
  }

  /** The carton numbers of the PO's lines in the given state, first occurrences only. */
  function DistinctCartons(lines: seq<CartonLine>, poId: nat, estado: string): seq<string>
  {
    if lines == [] then []
    else
      var rest := DistinctCartons(lines[..|lines| - 1], poId, estado);
      var l := lines[|lines| - 1];
      if l.poId == poId && l.estado == estado && l.numeroCarton !in rest then rest + [l.numeroCarton] else rest
  }

  /** `countByPoAndEstado`: `COUNT(DISTINCT numero_carton)` over the PO's lines in the state. */
  function CountByPoAndEstado(t: CartonTable, poId: nat, estado: string): nat
  {
    |DistinctCartons(t.lines, poId, estado)|
  }

  /** Reference definition: the set of carton numbers among the PO's lines in the state. */
  function CartonsInState(lines: seq<CartonLine>, poId: nat, estado: string): set<string>
  {
    set l | l in lines && l.poId == poId && l.estado == estado :: l.numeroCarton
  }

  // ---------------------------------------------------------------------------------------------
  // Bulk insert.

  /**
   * Every line of the batch is attempted: created plus errors is the batch size, the created lines
   * are appended to the table in order as PENDIENTE lines without a box, each carrying its input's
   * PO, carton, SKU and quantity, and each error names the carton of a failed insert.
   */
  lemma {:induction false} BulkCreateAccounts(t: CartonTable, cartones: seq<CartonInsert>, oracle: Oracle)
    ensures var b := BulkCreate(t, cartones, oracle);
            && |b.created| + |b.errors| == |cartones|
            && b.table.lines == t.lines + b.created
            && |b.created| == |CommittedIndices(|cartones|, oracle)|
            && |b.errors| == |FailedIndices(|cartones|, oracle)|
            && (forall k :: 0 <= k < |b.created| ==>
                  var i := CommittedIndices(|cartones|, oracle)[k];
                  && i < |cartones|
                  && b.created[k].estado == Pendiente && b.created[k].cajaId == None
                  && b.created[k].poId == cartones[i].poId && b.created[k].numeroCarton == cartones[i].cartonId
                  && b.created[k].sku == cartones[i].sku
                  && b.created[k].cantidadParesEsperados == cartones[i].cantidadPorCarton)
            && (forall k :: 0 <= k < |b.errors| ==>
                  var i := FailedIndices(|cartones|, oracle)[k];
                  i < |cartones| && oracle(i).Fail? && b.errors[k] == CartonFailure(cartones[i].cartonId, oracle(i).message))
  {
    if cartones != [] {
      var k := |cartones| - 1;
      BulkCreateAccounts(t, cartones[..k], oracle);
      FailedIndicesBound(k, oracle);
      CommittedIndicesBound(k, oracle);
      assert forall i :: 0 <= i < k ==> cartones[..k][i] == cartones[i];
    }
  }

  /** When every insert commits, the batch is stored line for line, in order. */
  lemma {:induction false} BulkCreateAllCommitted(t: CartonTable, cartones: seq<CartonInsert>, oracle: Oracle)
    requires forall k :: 0 <= k < |cartones| ==> oracle(k).Commit?
    ensures var b := BulkCreate(t, cartones, oracle);
            && b.errors == [] && |b.created| == |cartones|
            && forall k :: 0 <= k < |cartones| ==>
                 b.created[k].numeroCarton == cartones[k].cartonId && b.created[k].sku == cartones[k].sku
                 && b.created[k].poId == cartones[k].poId && b.created[k].estado == Pendiente
  {
    if cartones != [] {
      var k := |cartones| - 1;
      BulkCreateAllCommitted(t, cartones[..k], oracle);
      assert forall i :: 0 <= i < k ==> cartones[..k][i] == cartones[i];
    }
  }

  // ---------------------------------------------------------------------------------------------
  // MUSICAL.

  /** Lines that mirror a manifest: same length, and each line holds its manifest line's carton and SKU. */
  predicate Mirrors(lines: seq<CartonLine>, cs: seq<CartonCandidate>)
  {
    |lines| == |cs|
    && forall i :: 0 <= i < |lines| ==> lines[i].numeroCarton == cs[i].cartonId && lines[i].sku == cs[i].sku
  }

  /**
   * `isMusicale` applies the import classifier's rule. It counts every line of the table with the
   * carton number, so the two agree when the table is lines of other cartons (the first `k`)
   * followed by lines that mirror the manifest.
   */
  lemma IsMusicaleAgreesWithClassifier(t: CartonTable, k: nat, cs: seq<CartonCandidate>, n: string)
    requires k <= |t.lines| && Mirrors(t.lines[k..], cs)
    requires forall i :: 0 <= i < k ==> t.lines[i].numeroCarton != n
    ensures IsMusicale(t, n) <==> CartonClassifier.CartonTipo(cs, n) == Musical
  {
    var added := t.lines[k..];
    forall s | s in LineSkus(t.lines, n)
      ensures s in CartonClassifier.CartonSkus(cs, n)
    {
      var l :| l in t.lines && l.numeroCarton == n && l.sku == s;
      var i :| 0 <= i < |t.lines| && t.lines[i] == l;
      assert added[i - k] == l;
      assert cs[i - k] in cs;
    }
    forall s | s in CartonClassifier.CartonSkus(cs, n)
      ensures s in LineSkus(t.lines, n)
    {
      var c :| c in cs && c.cartonId == n && c.sku == s;
      var i :| 0 <= i < |cs| && cs[i] == c;
      assert t.lines[k + i] == added[i];
      assert t.lines[k + i] in t.lines;
    }
    assert LineSkus(t.lines, n) == CartonClassifier.CartonSkus(cs, n);
  }

  /**
   * Storing a classified manifest line for line after lines of other cartons, every line's `tipo`
   * from the import agrees with what `isMusicale` later says of its carton.
   */
  lemma StoredTipoAgrees(t: CartonTable, k: nat, cs: seq<CartonCandidate>)
    requires k <= |t.lines| && Mirrors(t.lines[k..], cs)
    requires forall i, j :: 0 <= i < k && 0 <= j < |cs| ==> t.lines[i].numeroCarton != cs[j].cartonId
    ensures var r := CartonClassifier.IdentificarTipoCartones(cs);
            forall i :: 0 <= i < |r| ==> (r[i].tipo == Musical <==> IsMusicale(t, r[i].carton.cartonId))
  {
    var r := CartonClassifier.IdentificarTipoCartones(cs);
    CartonClassifier.TipoFollowsSkus(cs);
    forall i | 0 <= i < |r|
      ensures r[i].tipo == Musical <==> IsMusicale(t, r[i].carton.cartonId)
    {
      var u := CartonClassifier.Untag(r);
      assert u[i] == r[i].carton && u[i] in multiset(u);
      var j :| 0 <= j < |cs| && cs[j] == r[i].carton;
      IsMusicaleAgreesWithClassifier(t, k, cs, r[i].carton.cartonId);
    }
  }

  /**
   * A line of the same carton stored by an earlier import changes the answer: the manifest's only
   * line of carton "C1" is MONO, but `isMusicale` also sees the older line with another SKU.
   */
  lemma EarlierLineMakesMusicale()
    ensures var t := CartonTable([CartonLine(1, 1, "C1", "X", 6, Pendiente, None),
                                  CartonLine(2, 2, "C1", "Y", 6, Pendiente, None)], 3);
            var cs := [CartonCandidate("C1", "Y", 6, "PO2")];
            && Mirrors(t.lines[1..], cs)
            && IsMusicale(t, "C1")
            && CartonClassifier.CartonTipo(cs, "C1") == Mono
  {
    var t := CartonTable([CartonLine(1, 1, "C1", "X", 6, Pendiente, None),
                          CartonLine(2, 2, "C1", "Y", 6, Pendiente, None)], 3);
    var cs := [CartonCandidate("C1", "Y", 6, "PO2")];
    assert t.lines[0] in t.lines && t.lines[1] in t.lines;
    assert LineSkus(t.lines, "C1") == {"X", "Y"};
    assert CartonClassifier.CartonSkus(cs, "C1") == {"Y"};
  }

  // ---------------------------------------------------------------------------------------------
  // Completion.

  /** The lines of a carton are those of the table with its number, in table order. */
  lemma {:induction false} LinesOfMembers(lines: seq<CartonLine>, n: string)
    ensures |LinesOf(lines, n)| == CountLines(lines, n)
    ensures forall l :: l in LinesOf(lines, n) <==> l in lines && l.numeroCarton == n
  {
    if lines != [] {
      LinesOfMembers(lines[1..], n);
      assert forall l :: l in lines <==> l == lines[0] || l in lines[1..];
    }
  }

  /** A carton's COMPLETADO lines never outnumber its lines, and match them only when all are COMPLETADO. */
  lemma {:induction false} CountCompletedMeaning(lines: seq<CartonLine>, n: string)
    ensures CountCompleted(lines, n) <= CountLines(lines, n)
    ensures CountCompleted(lines, n) == CountLines(lines, n) <==>
              forall i :: 0 <= i < |lines| && lines[i].numeroCarton == n ==> lines[i].estado == Completado
  {
    if lines != [] {
      CountCompletedMeaning(lines[1..], n);
      assert forall i :: 0 < i < |lines| ==> lines[i] == lines[1..][i - 1];
      if CountCompleted(lines, n) == CountLines(lines, n) {
        forall i | 0 <= i < |lines| && lines[i].numeroCarton == n
          ensures lines[i].estado == Completado
        {
          if i > 0 {
            assert lines[1..][i - 1] == lines[i];
          }
        }
      }
    }
  }

  /**
   * `checkMusicalComplete` holds exactly when every line of the carton is COMPLETADO; in
   * particular it holds for a carton with no lines.
   */
  lemma CheckMusicalCompleteMeaning(t: CartonTable, n: string)
    ensures CheckMusicalComplete(t, n) <==>
              forall i :: 0 <= i < |t.lines| && t.lines[i].numeroCarton == n ==> t.lines[i].estado == Completado
    ensures (forall i :: 0 <= i < |t.lines| ==> t.lines[i].numeroCarton != n) ==> CheckMusicalComplete(t, n)
  {
    CountCompletedMeaning(t.lines, n);
  }

  /**
   * `completeMusical` marks every line of the carton COMPLETADO and changes nothing else: other
   * cartons' lines are untouched and the carton's lines keep every other column. Afterwards the
   * carton is complete, and the lines returned are exactly its lines.
   */
  lemma CompleteMusicalEffect(t: CartonTable, n: string)
    ensures var (t', updated) := CompleteMusical(t, n);
            && |t'.lines| == |t.lines| && t'.nextId == t.nextId
            && (forall i :: 0 <= i < |t.lines| && t.lines[i].numeroCarton != n ==> t'.lines[i] == t.lines[i])
            && (forall i :: 0 <= i < |t.lines| && t.lines[i].numeroCarton == n ==>
                  t'.lines[i] == t.lines[i].(estado := Completado))
            && CheckMusicalComplete(t', n)
            && |updated| == CountLines(t.lines, n)
            && (forall l :: l in updated ==> l.numeroCarton == n && l.estado == Completado)
  {
    var (t', updated) := CompleteMusical(t, n);
    CheckMusicalCompleteMeaning(t', n);
    LinesOfMembers(t'.lines, n);
    CountLinesSameNumbers(t.lines, t'.lines, n);
  }

  /** Line counts depend only on the carton numbers. */
  lemma {:induction false} CountLinesSameNumbers(a: seq<CartonLine>, b: seq<CartonLine>, n: string)
    requires |a| == |b| && forall i :: 0 <= i < |a| ==> a[i].numeroCarton == b[i].numeroCarton
    ensures CountLines(a, n) == CountLines(b, n)
  {
    if a != [] {
      CountLinesSameNumbers(a[1..], b[1..], n);
    }
  }

  /**
   * `ligarCaja` sets the box and COMPLETADO on exactly the carton's lines, leaves the other lines
   * as they were, and returns the first of the updated lines, none when the carton has no lines.
   */
  lemma LigarCajaEffect(t: CartonTable, n: string, cajaId: string)
    ensures var (t', first) := LigarCaja(t, n, cajaId);
            && |t'.lines| == |t.lines| && t'.nextId == t.nextId
            && (forall i :: 0 <= i < |t.lines| && t.lines[i].numeroCarton != n ==> t'.lines[i] == t.lines[i])
            && (forall i :: 0 <= i < |t.lines| && t.lines[i].numeroCarton == n ==>
                  t'.lines[i] == t.lines[i].(cajaId := Some(cajaId), estado := Completado))
            && (first.None? <==> forall i :: 0 <= i < |t.lines| ==> t.lines[i].numeroCarton != n)
            && (first.Some? ==> first.value.numeroCarton == n && first.value.cajaId == Some(cajaId))
            && CheckMusicalComplete(t', n)
  {
    var (t', first) := LigarCaja(t, n, cajaId);
    LinesOfMembers(t'.lines, n);
    CheckMusicalCompleteMeaning(t', n);
    if first.None? {
      forall i | 0 <= i < |t.lines|
        ensures t.lines[i].numeroCarton != n
      {
        assert t'.lines[i] in t'.lines;
      }
    } else {
      assert LinesOf(t'.lines, n)[0] in LinesOf(t'.lines, n);
    }
  }

  // ---------------------------------------------------------------------------------------------
  // Counting.

  /**
   * `countByPoAndEstado` counts distinct cartons, not lines: it is the size of the set of carton
   * numbers among the PO's lines in the state, and at most the number of those lines.
   */
  lemma {:induction false} CountByPoAndEstadoDistinct(lines: seq<CartonLine>, poId: nat, estado: string)
    ensures CountByPoAndEstado(CartonTable(lines, 0), poId, estado) == |CartonsInState(lines, poId, estado)|
    ensures CountByPoAndEstado(CartonTable(lines, 0), poId, estado) <= |lines|
  {
    var d := DistinctCartons(lines, poId, estado);
    DistinctCartonsSet(lines, poId, estado);
    DistinctLength(d);
    assert (set x | x in d) == CartonsInState(lines, poId, estado);
    DistinctCartonsBound(lines, poId, estado);
  }

  /** The distinct list holds each matching carton number once. */
  lemma {:induction false} DistinctCartonsSet(lines: seq<CartonLine>, poId: nat, estado: string)
    ensures forall x :: x in DistinctCartons(lines, poId, estado) <==> x in CartonsInState(lines, poId, estado)
    ensures forall a, b :: 0 <= a < b < |DistinctCartons(lines, poId, estado)| ==>
              DistinctCartons(lines, poId, estado)[a] != DistinctCartons(lines, poId, estado)[b]
  {
    if lines != [] {
      var prefix := lines[..|lines| - 1];
      DistinctCartonsSet(prefix, poId, estado);
      assert lines == prefix + [lines[|lines| - 1]];
      assert forall l :: l in lines <==> l in prefix || l == lines[|lines| - 1];
    }
  }

  /** A list without repeats is as long as the set of its elements. */
  lemma {:induction false} DistinctLength(s: seq<string>)
    requires forall a, b :: 0 <= a < b < |s| ==> s[a] != s[b]
    ensures |set x | x in s| == |s|
  {
    if s != [] {
      var p := s[..|s| - 1];
      DistinctLength(p);
      assert s == p + [s[|s| - 1]];
      assert (set x | x in s) == (set x | x in p) + {s[|s| - 1]};
      assert s[|s| - 1] !in p;
    }
  }

  lemma {:induction false} DistinctCartonsBound(lines: seq<CartonLine>, poId: nat, estado: string)
    ensures |DistinctCartons(lines, poId, estado)| <= |lines|
  {
    if lines != [] {
      DistinctCartonsBound(lines[..|lines| - 1], poId, estado);
    }
  }
}
