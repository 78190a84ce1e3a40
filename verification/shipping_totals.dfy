/**
 * `validateShippingData`: reconciles the totals each PO declares (pairs, cartons) against the
 * pairs summed and the distinct carton ids counted over the carton lines that reference it.
 * The accumulator is a plain object keyed by PO number, walked with `Object.keys`.
 */
module ShippingTotals {
  import opened ShippingTypes
  import opened JsObject

  /** The value `posMap[poNumber]` holds while cartons are tallied. */
  datatype PoTally = PoTally(
    cantidadPares: int,
    cantidadCartones: int,
    paresContados: int,
    cartonesContados: set<string>)

  /** One row of `resumen`: declared against found, for pairs and for cartons. */
  datatype PoSummary = PoSummary(
    poNumber: string,
    paresEsperados: int,
    paresEncontrados: int,
    cartonesEsperados: int,
    cartonesEncontrados: int)

  datatype ShippingReport = ShippingReport(
    valido: bool,
    errores: seq<ShippingError>,
    resumen: seq<PoSummary>)

  function PoNumbers(pos: seq<PoCandidate>): (r: seq<string>)
    ensures |r| == |pos|
    ensures forall i :: 0 <= i < |pos| ==> r[i] == pos[i].poNumber
  {
    if pos == [] then [] else PoNumbers(pos[..|pos| - 1]) + [pos[|pos| - 1].poNumber]
  }

  /** Row `j` is the last "PO" row naming its PO number: its totals are the ones kept. */
  predicate IsLastDeclaration(pos: seq<PoCandidate>, j: int)
  {
    0 <= j < |pos| && forall l :: j < l < |pos| ==> pos[l].poNumber != pos[j].poNumber
  }

  /** The row whose totals count for PO `k`. */
  function LastDeclaration(pos: seq<PoCandidate>, k: string): (j: nat)
    requires k in PoNumbers(pos)
    ensures IsLastDeclaration(pos, j) && pos[j].poNumber == k
  {
    if pos[|pos| - 1].poNumber == k then |pos| - 1
    else
      assert PoNumbers(pos) == PoNumbers(pos[..|pos| - 1]) + [pos[|pos| - 1].poNumber];
      LastDeclaration(pos[..|pos| - 1], k)
  }

  function FreshTally(p: PoCandidate): PoTally
  {
    PoTally(p.cantidadPares, p.cantidadCartones, 0, {})
  }

  /** The first loop: one entry per PO number, later rows overwriting earlier ones. */
  function BuildPosMap(pos: seq<PoCandidate>): map<string, PoTally>
  {
    if pos == [] then map[]
    else
      var p := pos[|pos| - 1];
      BuildPosMap(pos[..|pos| - 1])[p.poNumber := FreshTally(p)]
  }

  /** The map has one key per declared PO number. */
  lemma {:induction false} PosMapKeys(pos: seq<PoCandidate>)
    ensures forall k :: k in BuildPosMap(pos) <==> k in PoNumbers(pos)
  {
    if pos != [] {
      PosMapKeys(pos[..|pos| - 1]);
      assert PoNumbers(pos) == PoNumbers(pos[..|pos| - 1]) + [pos[|pos| - 1].poNumber];
    }
  }

  /** When a PO number is declared twice, the later row's totals are the ones kept. */
  lemma {:induction false} LaterDeclarationWins(pos: seq<PoCandidate>, j: int)
    requires IsLastDeclaration(pos, j)
    ensures pos[j].poNumber in BuildPosMap(pos)
    ensures BuildPosMap(pos)[pos[j].poNumber] == FreshTally(pos[j])
  {
    var prefix := pos[..|pos| - 1];
    if j < |prefix| {
      assert pos[|pos| - 1].poNumber != pos[j].poNumber;
      assert forall l :: j < l < |prefix| ==> prefix[l] == pos[l];
      LaterDeclarationWins(prefix, j);
    }
  }

  /** The lines whose PO number is not a key of the map: the ones reported as unknown. */
  function Orphans(keys: set<string>, cartones: seq<CartonCandidate>): seq<CartonCandidate>
  {
    if cartones == [] then []
    else
      var c := cartones[|cartones| - 1];
      var rest := Orphans(keys, cartones[..|cartones| - 1]);
      if c.poNumber in keys then rest else rest + [c]
  }

  /** The lines whose PO number is declared. */
  function Resolved(keys: set<string>, cartones: seq<CartonCandidate>): seq<CartonCandidate>
  {
    if cartones == [] then []
    else
      var c := cartones[|cartones| - 1];
      var rest := Resolved(keys, cartones[..|cartones| - 1]);
      if c.poNumber in keys then rest + [c] else rest
  }

  lemma {:induction false} OrphansMembers(keys: set<string>, cartones: seq<CartonCandidate>)
    ensures forall c :: c in Orphans(keys, cartones) <==> c in cartones && c.poNumber !in keys
  {
    if cartones != [] {
      OrphansMembers(keys, cartones[..|cartones| - 1]);
      assert cartones == cartones[..|cartones| - 1] + [cartones[|cartones| - 1]];
    }
  }

  lemma {:induction false} ResolvedMembers(keys: set<string>, cartones: seq<CartonCandidate>)
    ensures forall c :: c in Resolved(keys, cartones) <==> c in cartones && c.poNumber in keys
  {
    if cartones != [] {
      ResolvedMembers(keys, cartones[..|cartones| - 1]);
      assert cartones == cartones[..|cartones| - 1] + [cartones[|cartones| - 1]];
    }
  }

  function OrphanErrors(orphans: seq<CartonCandidate>): (r: seq<ShippingError>)
    ensures |r| == |orphans|
    ensures forall i :: 0 <= i < |r| ==> r[i] == PoNoEncontrada(orphans[i].cartonId, orphans[i].poNumber)
  {
    if orphans == [] then []
    else OrphanErrors(orphans[..|orphans| - 1]) + [PoNoEncontrada(orphans[|orphans| - 1].cartonId, orphans[|orphans| - 1].poNumber)]
  }

  /** The sum of `cantidadPorCarton` over `lines`. */
  function SumPairs(lines: seq<CartonCandidate>): int
  {
    if lines == [] then 0
    else SumPairs(lines[..|lines| - 1]) + lines[|lines| - 1].cantidadPorCarton
  }

  /** Total pairs of the lines that reference PO `k`. */
  function PairsFor(cartones: seq<CartonCandidate>, k: string): int
  {
    SumPairs(Resolved({k}, cartones))
  }

  lemma PairsForSnoc(cartones: seq<CartonCandidate>, c: CartonCandidate, k: string)
    ensures PairsFor(cartones + [c], k) == PairsFor(cartones, k) + (if c.poNumber == k then c.cantidadPorCarton else 0)
  {
    var s := cartones + [c];
    assert s[..|s| - 1] == cartones;
    var rest := Resolved({k}, cartones);
    if c.poNumber == k {
      assert (rest + [c])[..|rest|] == rest;
    }
  }

  /** Distinct carton ids among the lines that reference PO `k`. */
  function CartonIdsFor(cartones: seq<CartonCandidate>, k: string): set<string>
  {
    set c | c in cartones && c.poNumber == k :: c.cartonId
  }

  lemma CartonIdsForSnoc(cartones: seq<CartonCandidate>, c: CartonCandidate, k: string)
    ensures CartonIdsFor(cartones + [c], k)
            == CartonIdsFor(cartones, k) + (if c.poNumber == k then {c.cartonId} else {})
  {
    var s := cartones + [c];
    forall x | x in CartonIdsFor(s, k)
      ensures x in CartonIdsFor(cartones, k) + (if c.poNumber == k then {c.cartonId} else {})
    {
      var d :| d in s && d.poNumber == k && d.cartonId == x;
      if d != c {
        assert d in cartones;
      }
    }
  }

  datatype Tally = Tally(posMap: map<string, PoTally>, errores: seq<ShippingError>)

  function AddCarton(e: PoTally, c: CartonCandidate): PoTally
  {
    e.(paresContados := e.paresContados + c.cantidadPorCarton,
       cartonesContados := e.cartonesContados + {c.cartonId})
  }

  /** The carton loop: an unknown PO yields `PO_NO_ENCONTRADA` and the line is skipped. */
  function TallyCartons(posMap: map<string, PoTally>, cartones: seq<CartonCandidate>): Tally
  {
    if cartones == [] then Tally(posMap, [])
    else
      var t := TallyCartons(posMap, cartones[..|cartones| - 1]);
      var c := cartones[|cartones| - 1];
      if c.poNumber !in t.posMap then
        Tally(t.posMap, t.errores + [PoNoEncontrada(c.cartonId, c.poNumber)])
      else
        Tally(t.posMap[c.poNumber := AddCarton(t.posMap[c.poNumber], c)], t.errores)
  }

  /** The carton loop adds no key and leaves every PO's declared totals alone. */
  lemma {:induction false} TallyKeepsDeclared(posMap: map<string, PoTally>, cartones: seq<CartonCandidate>)
    ensures TallyCartons(posMap, cartones).posMap.Keys == posMap.Keys
    ensures forall k :: k in posMap ==>
              && TallyCartons(posMap, cartones).posMap[k].cantidadPares == posMap[k].cantidadPares
              && TallyCartons(posMap, cartones).posMap[k].cantidadCartones == posMap[k].cantidadCartones
  {
    if cartones != [] {
      TallyKeepsDeclared(posMap, cartones[..|cartones| - 1]);
    }
  }

  /** The carton loop reports one `PO_NO_ENCONTRADA` per line with an undeclared PO, in line order. */
  lemma {:induction false} TallyOrphans(posMap: map<string, PoTally>, cartones: seq<CartonCandidate>)
    ensures TallyCartons(posMap, cartones).errores == OrphanErrors(Orphans(posMap.Keys, cartones))
  {
    if cartones != [] {
      TallyOrphans(posMap, cartones[..|cartones| - 1]);
      TallyKeepsDeclared(posMap, cartones[..|cartones| - 1]);
    }
  }

  /** The discrepancies of one PO: pairs first, then cartons; exact equality, no tolerance. */
  function PoTotalsErrors(k: string, t: PoTally): seq<ShippingError>
  {
    (if t.paresContados != t.cantidadPares
     then [ParesNoCuadran(k, t.cantidadPares, t.paresContados, t.paresContados - t.cantidadPares)]
     else [])
    + (if |t.cartonesContados| != t.cantidadCartones
       then [CartonesNoCuadran(k, t.cantidadCartones, |t.cartonesContados|, |t.cartonesContados| - t.cantidadCartones)]
       else [])
  }

  predicate TallyBalanced(t: PoTally)
  {
    t.paresContados == t.cantidadPares && |t.cartonesContados| == t.cantidadCartones
  }

  function TotalsErrors(posMap: map<string, PoTally>, keys: seq<string>): (r: seq<ShippingError>)
    requires forall i :: 0 <= i < |keys| ==> keys[i] in posMap
  {
    if keys == [] then []
    else PoTotalsErrors(keys[0], posMap[keys[0]]) + TotalsErrors(posMap, keys[1..])
  }

  /** The PO walk: each PO's discrepancies are pushed onto `errores` in turn. */
  function WalkPos(posMap: map<string, PoTally>, keys: seq<string>, errores: seq<ShippingError>): seq<ShippingError>
    requires forall i :: 0 <= i < |keys| ==> keys[i] in posMap
    decreases |keys|
  {
    if keys == [] then errores
    else WalkPos(posMap, keys[1..], errores + PoTotalsErrors(keys[0], posMap[keys[0]]))
  }

  /** The walk appends the discrepancies of the walked POs, in walk order, to what was there. */
  lemma {:induction false} WalkPosAppends(posMap: map<string, PoTally>, keys: seq<string>, errores: seq<ShippingError>)
    requires forall i :: 0 <= i < |keys| ==> keys[i] in posMap
    ensures WalkPos(posMap, keys, errores) == errores + TotalsErrors(posMap, keys)
  {
    if keys != [] {
      var head := PoTotalsErrors(keys[0], posMap[keys[0]]);
      WalkPosAppends(posMap, keys[1..], errores + head);
      assert (errores + head) + TotalsErrors(posMap, keys[1..]) == errores + (head + TotalsErrors(posMap, keys[1..]));
    }
  }

  /** The walk leaves the list empty exactly when it started empty and every walked PO balances. */
  lemma WalkPosEmpty(posMap: map<string, PoTally>, keys: seq<string>, errores: seq<ShippingError>)
    requires forall i :: 0 <= i < |keys| ==> keys[i] in posMap
    ensures WalkPos(posMap, keys, errores) == []
            <==> errores == [] && forall i :: 0 <= i < |keys| ==> TallyBalanced(posMap[keys[i]])
  {
    WalkPosAppends(posMap, keys, errores);
    TotalsErrorsEmpty(posMap, keys);
  }

  /** No discrepancy is reported exactly when every walked PO balances. */
  lemma {:induction false} TotalsErrorsEmpty(posMap: map<string, PoTally>, keys: seq<string>)
    requires forall i :: 0 <= i < |keys| ==> keys[i] in posMap
    ensures TotalsErrors(posMap, keys) == [] <==> forall i :: 0 <= i < |keys| ==> TallyBalanced(posMap[keys[i]])
  {
    if keys != [] {
      TotalsErrorsEmpty(posMap, keys[1..]);
      assert forall i :: 0 < i < |keys| ==> keys[i] == keys[1..][i - 1];
    }
  }

  /** Every reported discrepancy comes from one walked PO. */
  lemma {:induction false} TotalsErrorsSource(posMap: map<string, PoTally>, keys: seq<string>, e: ShippingError)
    requires forall i :: 0 <= i < |keys| ==> keys[i] in posMap
    requires e in TotalsErrors(posMap, keys)
    ensures exists i :: 0 <= i < |keys| && e in PoTotalsErrors(keys[i], posMap[keys[i]])
  {
    if e !in PoTotalsErrors(keys[0], posMap[keys[0]]) {
      TotalsErrorsSource(posMap, keys[1..], e);
      var i :| 0 <= i < |keys[1..]| && e in PoTotalsErrors(keys[1..][i], posMap[keys[1..][i]]);
      assert keys[1..][i] == keys[i + 1];
    }
  }

  /** Every discrepancy of a walked PO is reported. */
  lemma {:induction false} TotalsErrorsComplete(posMap: map<string, PoTally>, keys: seq<string>, i: int, e: ShippingError)
    requires forall l :: 0 <= l < |keys| ==> keys[l] in posMap
    requires 0 <= i < |keys| && e in PoTotalsErrors(keys[i], posMap[keys[i]])
    ensures e in TotalsErrors(posMap, keys)
  {
    if i > 0 {
      assert keys[1..][i - 1] == keys[i];
      TotalsErrorsComplete(posMap, keys[1..], i - 1, e);
    }
  }

  /** The `resumen` rows of the walked POs. */
  function Summaries(posMap: map<string, PoTally>, keys: seq<string>): (r: seq<PoSummary>)
    requires forall i :: 0 <= i < |keys| ==> keys[i] in posMap
    ensures |r| == |keys|
  {
    if keys == [] then []
    else
      var t := posMap[keys[0]];
      [PoSummary(keys[0], t.cantidadPares, t.paresContados, t.cantidadCartones, |t.cartonesContados|)]
      + Summaries(posMap, keys[1..])
  }

  /** Row `i` of the summary reports PO `keys[i]` with its declared and tallied totals. */
  lemma {:induction false} SummariesRows(posMap: map<string, PoTally>, keys: seq<string>)
    requires forall i :: 0 <= i < |keys| ==> keys[i] in posMap
    ensures forall i :: 0 <= i < |keys| ==>
              Summaries(posMap, keys)[i]
              == PoSummary(keys[i], posMap[keys[i]].cantidadPares, posMap[keys[i]].paresContados,
                           posMap[keys[i]].cantidadCartones, |posMap[keys[i]].cartonesContados|)
  {
    if keys != [] {
      SummariesRows(posMap, keys[1..]);
      assert forall i :: 0 < i < |keys| ==> keys[i] == keys[1..][i - 1];
    }
  }

  /** `Object.keys(posMap)`: every declared PO number once. */
  function PoKeys(pos: seq<PoCandidate>): seq<string>
  {
    OwnKeys(FirstAssigned(PoNumbers(pos)))
  }

  /** The walk visits every declared PO number and nothing else. */
  lemma PoKeysMembers(pos: seq<PoCandidate>)
    ensures forall k :: k in PoKeys(pos) <==> k in PoNumbers(pos)
  {
    OwnKeysOfObject(PoNumbers(pos));
  }

  /** The walk visits each declared PO number once. */
  lemma PoKeysDistinct(pos: seq<PoCandidate>)
    ensures Distinct(PoKeys(pos))
  {
    OwnKeysOfObject(PoNumbers(pos));
  }

  function ValidateShippingData(pos: seq<PoCandidate>, cartones: seq<CartonCandidate>): (r: ShippingReport)
    ensures r.valido <==> r.errores == []
    ensures |r.resumen| == |PoKeys(pos)|
  {
    var posMap := BuildPosMap(pos);
    var tally := TallyCartons(posMap, cartones);
    var keys := PoKeys(pos);
    KeysTallied(pos, cartones);
    var errores := WalkPos(tally.posMap, keys, tally.errores);
    ShippingReport(|errores| == 0, errores, Summaries(tally.posMap, keys))
  }

  /** The PO numbers the "PO" sheet declares. */
  function DeclaredPos(pos: seq<PoCandidate>): (d: set<string>)
    ensures d == BuildPosMap(pos).Keys
  {
    PosMapKeys(pos);
    set k | k in PoNumbers(pos)
  }

  /** After the carton loop, a declared PO holds the pair sum and the distinct carton ids of its lines. */
  lemma {:induction false} TallyCounts(m: map<string, PoTally>, cartones: seq<CartonCandidate>, k: string)
    requires k in m && m[k].paresContados == 0 && m[k].cartonesContados == {}
    ensures k in TallyCartons(m, cartones).posMap
    ensures TallyCartons(m, cartones).posMap[k].paresContados == PairsFor(cartones, k)
    ensures TallyCartons(m, cartones).posMap[k].cartonesContados == CartonIdsFor(cartones, k)
  {
    if cartones == [] {
      assert CartonIdsFor(cartones, k) == {};
    } else {
      var prefix := cartones[..|cartones| - 1];
      var c := cartones[|cartones| - 1];
      TallyCounts(m, prefix, k);
      TallyKeepsDeclared(m, prefix);
      assert cartones == prefix + [c];
      CartonIdsForSnoc(prefix, c, k);
      PairsForSnoc(prefix, c, k);
    }
  }

  /** The tally of PO number `pos[j].poNumber`, `j` being its last declaration. */
  lemma ReportTally(pos: seq<PoCandidate>, cartones: seq<CartonCandidate>, j: int)
    requires IsLastDeclaration(pos, j)
    ensures pos[j].poNumber in TallyCartons(BuildPosMap(pos), cartones).posMap
    ensures TallyCartons(BuildPosMap(pos), cartones).posMap[pos[j].poNumber]
            == PoTally(pos[j].cantidadPares, pos[j].cantidadCartones,
                       PairsFor(cartones, pos[j].poNumber), CartonIdsFor(cartones, pos[j].poNumber))
  {
    LaterDeclarationWins(pos, j);
    TallyCounts(BuildPosMap(pos), cartones, pos[j].poNumber);
  }

  /**
   * The reconciliation succeeds: every line references a declared PO, and every PO's declared
   * pairs and cartons equal the pair sum and the number of distinct carton ids of its lines.
   */
  ghost predicate Balanced(pos: seq<PoCandidate>, cartones: seq<CartonCandidate>)
  {
    && (forall c :: c in cartones ==> c.poNumber in PoNumbers(pos))
    && (forall j :: IsLastDeclaration(pos, j) ==>
          && PairsFor(cartones, pos[j].poNumber) == pos[j].cantidadPares
          && |CartonIdsFor(cartones, pos[j].poNumber)| == pos[j].cantidadCartones)
  }

  /** The carton loop reports nothing exactly when every line references a declared PO. */
  lemma LoopErrorsEmpty(pos: seq<PoCandidate>, cartones: seq<CartonCandidate>)
    ensures TallyCartons(BuildPosMap(pos), cartones).errores == []
            <==> forall c :: c in cartones ==> c.poNumber in PoNumbers(pos)
  {
    var m := BuildPosMap(pos);
    var orphans := Orphans(m.Keys, cartones);
    TallyOrphans(m, cartones);
    OrphansMembers(m.Keys, cartones);
    PosMapKeys(pos);
    if orphans != [] {
      assert orphans[0] in orphans;
    }
  }

  /** Every walked PO balances exactly when every declared PO's totals match its lines. */
  lemma WalkBalancedIff(pos: seq<PoCandidate>, cartones: seq<CartonCandidate>)
    ensures forall l :: 0 <= l < |PoKeys(pos)| ==> PoKeys(pos)[l] in TallyCartons(BuildPosMap(pos), cartones).posMap
    ensures var t := TallyCartons(BuildPosMap(pos), cartones);
            var keys := PoKeys(pos);
            (forall i :: 0 <= i < |keys| ==> TallyBalanced(t.posMap[keys[i]]))
            <==> (forall j :: IsLastDeclaration(pos, j) ==>
                    && PairsFor(cartones, pos[j].poNumber) == pos[j].cantidadPares
                    && |CartonIdsFor(cartones, pos[j].poNumber)| == pos[j].cantidadCartones)
  {
    var t := TallyCartons(BuildPosMap(pos), cartones);
    var keys := PoKeys(pos);
    KeysTallied(pos, cartones);
    PoKeysMembers(pos);
    if forall i :: 0 <= i < |keys| ==> TallyBalanced(t.posMap[keys[i]]) {
      forall j | IsLastDeclaration(pos, j)
        ensures PairsFor(cartones, pos[j].poNumber) == pos[j].cantidadPares
        ensures |CartonIdsFor(cartones, pos[j].poNumber)| == pos[j].cantidadCartones
      {
        ReportTally(pos, cartones, j);
        assert pos[j].poNumber in PoNumbers(pos);
        var i :| 0 <= i < |keys| && keys[i] == pos[j].poNumber;
        assert TallyBalanced(t.posMap[keys[i]]);
      }
    }
    if forall j :: IsLastDeclaration(pos, j) ==>
                    && PairsFor(cartones, pos[j].poNumber) == pos[j].cantidadPares
                    && |CartonIdsFor(cartones, pos[j].poNumber)| == pos[j].cantidadCartones {
      forall i | 0 <= i < |keys|
        ensures TallyBalanced(t.posMap[keys[i]])
      {
        var j := LastDeclaration(pos, keys[i]);
        ReportTally(pos, cartones, j);
      }
    }
  }

  /** `valido` holds exactly when the data reconcile. */
  lemma ValidIffBalanced(pos: seq<PoCandidate>, cartones: seq<CartonCandidate>)
    ensures ValidateShippingData(pos, cartones).valido ==> Balanced(pos, cartones)
    ensures Balanced(pos, cartones) ==> ValidateShippingData(pos, cartones).valido
  {
    var t := TallyCartons(BuildPosMap(pos), cartones);
    LoopErrorsEmpty(pos, cartones);
    WalkBalancedIff(pos, cartones);
    WalkPosEmpty(t.posMap, PoKeys(pos), t.errores);
  }

  /** A line whose PO is not declared is reported as `PO_NO_ENCONTRADA`, naming its carton and PO. */
  lemma OrphanReported(pos: seq<PoCandidate>, cartones: seq<CartonCandidate>, c: CartonCandidate)
    requires c in cartones && c.poNumber !in PoNumbers(pos)
    ensures PoNoEncontrada(c.cartonId, c.poNumber) in ValidateShippingData(pos, cartones).errores
  {
    var orphans := Orphans(BuildPosMap(pos).Keys, cartones);
    TallyOrphans(BuildPosMap(pos), cartones);
    OrphansMembers(BuildPosMap(pos).Keys, cartones);
    PosMapKeys(pos);
    assert c in orphans;
    var i :| 0 <= i < |orphans| && orphans[i] == c;
    assert OrphanErrors(orphans)[i] == PoNoEncontrada(c.cartonId, c.poNumber);
    var t := TallyCartons(BuildPosMap(pos), cartones);
    KeysTallied(pos, cartones);
    WalkPosAppends(t.posMap, PoKeys(pos), t.errores);
  }

  /** Keeping the lines of a set of POs, then those of `k` in it, keeps the lines of `k`. */
  lemma {:induction false} ResolvedNarrow(keys: set<string>, cartones: seq<CartonCandidate>, k: string)
    requires k in keys
    ensures Resolved({k}, Resolved(keys, cartones)) == Resolved({k}, cartones)
  {
    if cartones != [] {
      var prefix := cartones[..|cartones| - 1];
      var c := cartones[|cartones| - 1];
      ResolvedNarrow(keys, prefix, k);
      var rest := Resolved(keys, prefix);
      if c.poNumber in keys {
        assert (rest + [c])[..|rest|] == rest;
      }
    }
  }

  /** Lines referencing an undeclared PO add nothing to any PO's pair sum or carton set. */
  lemma OrphansExcluded(pos: seq<PoCandidate>, cartones: seq<CartonCandidate>)
    ensures ValidateShippingData(pos, cartones).resumen
            == ValidateShippingData(pos, Resolved(DeclaredPos(pos), cartones)).resumen
  {
    var keys := DeclaredPos(pos);
    var resolved := Resolved(keys, cartones);
    ResolvedMembers(keys, cartones);
    var m := BuildPosMap(pos);
    var a := TallyCartons(m, cartones).posMap;
    var b := TallyCartons(m, resolved).posMap;
    PosMapKeys(pos);
    TallyKeepsDeclared(m, cartones);
    TallyKeepsDeclared(m, resolved);
    forall k | k in a
      ensures b[k] == a[k]
    {
      var j := LastDeclaration(pos, k);
      ReportTally(pos, cartones, j);
      ReportTally(pos, resolved, j);
      ResolvedNarrow(keys, cartones, k);
      assert CartonIdsFor(resolved, k) == CartonIdsFor(cartones, k);
    }
    assert a == b;
  }

  /** The error list: the unknown-PO errors of the carton loop, then the discrepancies of the PO walk. */
  lemma ReportErrors(pos: seq<PoCandidate>, cartones: seq<CartonCandidate>)
    ensures forall l :: 0 <= l < |PoKeys(pos)| ==> PoKeys(pos)[l] in TallyCartons(BuildPosMap(pos), cartones).posMap
    ensures var t := TallyCartons(BuildPosMap(pos), cartones);
            && ValidateShippingData(pos, cartones).errores == WalkPos(t.posMap, PoKeys(pos), t.errores)
            && ValidateShippingData(pos, cartones).resumen == Summaries(t.posMap, PoKeys(pos))
            && (forall e :: e in t.errores ==> e.PoNoEncontrada?)
  {
    KeysTallied(pos, cartones);
    TallyOrphans(BuildPosMap(pos), cartones);
  }

  /** Every key the PO walk visits is a key of the tallied map. */
  lemma KeysTallied(pos: seq<PoCandidate>, cartones: seq<CartonCandidate>)
    ensures var t := TallyCartons(BuildPosMap(pos), cartones);
            forall l :: 0 <= l < |PoKeys(pos)| ==> PoKeys(pos)[l] in t.posMap
  {
    PoKeysMembers(pos);
    PosMapKeys(pos);
    TallyKeepsDeclared(BuildPosMap(pos), cartones);
  }

  /**
   * In an error list split into loop errors and walk errors, an error that is not an unknown PO
   * is the discrepancy of one walked PO whose tally disagrees.
   */
  lemma AppendedErrorOrigin(pm: map<string, PoTally>, keys: seq<string>, loopErrors: seq<ShippingError>,
                            errores: seq<ShippingError>, e: ShippingError) returns (k: string)
    requires forall l :: 0 <= l < |keys| ==> keys[l] in pm
    requires forall d :: d in loopErrors ==> d.PoNoEncontrada?
    requires errores == loopErrors + TotalsErrors(pm, keys)
    requires e in errores && !e.PoNoEncontrada?
    ensures k in keys && k in pm
    ensures e.ParesNoCuadran? || e.CartonesNoCuadran?
    ensures e.ParesNoCuadran? ==>
              && pm[k].paresContados != pm[k].cantidadPares
              && e == ParesNoCuadran(k, pm[k].cantidadPares, pm[k].paresContados, pm[k].paresContados - pm[k].cantidadPares)
    ensures e.CartonesNoCuadran? ==>
              && |pm[k].cartonesContados| != pm[k].cantidadCartones
              && e == CartonesNoCuadran(k, pm[k].cantidadCartones, |pm[k].cartonesContados|,
                                        |pm[k].cartonesContados| - pm[k].cantidadCartones)
  {
    assert e !in loopErrors;
    TotalsErrorsSource(pm, keys, e);
    var l :| 0 <= l < |keys| && e in PoTotalsErrors(keys[l], pm[keys[l]]);
    k := keys[l];
  }

  /** A reported error that is not an unknown PO is the discrepancy of one walked PO whose tally disagrees. */
  lemma TotalsErrorOrigin(pm: map<string, PoTally>, keys: seq<string>, loopErrors: seq<ShippingError>,
                          errores: seq<ShippingError>, e: ShippingError) returns (k: string)
    requires forall l :: 0 <= l < |keys| ==> keys[l] in pm
    requires forall d :: d in loopErrors ==> d.PoNoEncontrada?
    requires errores == WalkPos(pm, keys, loopErrors)
    requires e in errores && !e.PoNoEncontrada?
    ensures k in keys && k in pm
    ensures e.ParesNoCuadran? || e.CartonesNoCuadran?
    ensures e.ParesNoCuadran? ==>
              && pm[k].paresContados != pm[k].cantidadPares
              && e == ParesNoCuadran(k, pm[k].cantidadPares, pm[k].paresContados, pm[k].paresContados - pm[k].cantidadPares)
    ensures e.CartonesNoCuadran? ==>
              && |pm[k].cartonesContados| != pm[k].cantidadCartones
              && e == CartonesNoCuadran(k, pm[k].cantidadCartones, |pm[k].cartonesContados|,
                                        |pm[k].cartonesContados| - pm[k].cantidadCartones)
  {
    WalkPosAppends(pm, keys, loopErrors);
    k := AppendedErrorOrigin(pm, keys, loopErrors, errores, e);
  }

  /** For a walked PO of an error list already split into loop errors and walk errors, a pair or carton discrepancy is reported exactly when its tally disagrees. */
  lemma TalliedDiscrepancyAppended(pm: map<string, PoTally>, keys: seq<string>, loopErrors: seq<ShippingError>,
                           errores: seq<ShippingError>, i: int)
    requires forall l :: 0 <= l < |keys| ==> keys[l] in pm
    requires forall d :: d in loopErrors ==> d.PoNoEncontrada?
    requires errores == loopErrors + TotalsErrors(pm, keys)
    requires Distinct(keys) && 0 <= i < |keys|
    ensures var t := pm[keys[i]];
            t.paresContados != t.cantidadPares
            <==> ParesNoCuadran(keys[i], t.cantidadPares, t.paresContados, t.paresContados - t.cantidadPares) in errores
    ensures var t := pm[keys[i]];
            |t.cartonesContados| != t.cantidadCartones
            <==> CartonesNoCuadran(keys[i], t.cantidadCartones, |t.cartonesContados|, |t.cartonesContados| - t.cantidadCartones)
                 in errores
  {
    var k := keys[i];
    var t := pm[k];
    var p := ParesNoCuadran(k, t.cantidadPares, t.paresContados, t.paresContados - t.cantidadPares);
    var c := CartonesNoCuadran(k, t.cantidadCartones, |t.cartonesContados|, |t.cartonesContados| - t.cantidadCartones);
    forall e | e == p || e == c
      ensures e in errores <==> e in PoTotalsErrors(k, t)
    {
      if e in PoTotalsErrors(k, t) {
        TotalsErrorsComplete(pm, keys, i, e);
      }
      if e in errores {
        var k' := AppendedErrorOrigin(pm, keys, loopErrors, errores, e);
      }
    }
  }

  /** For a walked PO, a pair or carton discrepancy is reported exactly when its tally disagrees. */
  lemma TalliedDiscrepancy(pm: map<string, PoTally>, keys: seq<string>, loopErrors: seq<ShippingError>,
                           errores: seq<ShippingError>, i: int)
    requires forall l :: 0 <= l < |keys| ==> keys[l] in pm
    requires forall d :: d in loopErrors ==> d.PoNoEncontrada?
    requires errores == WalkPos(pm, keys, loopErrors)
    requires Distinct(keys) && 0 <= i < |keys|
    ensures var t := pm[keys[i]];
            t.paresContados != t.cantidadPares
            <==> ParesNoCuadran(keys[i], t.cantidadPares, t.paresContados, t.paresContados - t.cantidadPares) in errores
    ensures var t := pm[keys[i]];
            |t.cartonesContados| != t.cantidadCartones
            <==> CartonesNoCuadran(keys[i], t.cantidadCartones, |t.cartonesContados|, |t.cartonesContados| - t.cantidadCartones)
                 in errores
  {
    WalkPosAppends(pm, keys, loopErrors);
    TalliedDiscrepancyAppended(pm, keys, loopErrors, errores, i);
  }

  /** A summary row's mismatch is reported exactly when its found value differs from the declared one. */
  lemma SummaryDiscrepancy(pm: map<string, PoTally>, keys: seq<string>, loopErrors: seq<ShippingError>,
                           errores: seq<ShippingError>, resumen: seq<PoSummary>, i: int)
    requires forall l :: 0 <= l < |keys| ==> keys[l] in pm
    requires forall d :: d in loopErrors ==> d.PoNoEncontrada?
    requires errores == WalkPos(pm, keys, loopErrors) && resumen == Summaries(pm, keys)
    requires Distinct(keys) && 0 <= i < |keys|
    ensures resumen[i].paresEncontrados != resumen[i].paresEsperados
            <==> ParesNoCuadran(resumen[i].poNumber, resumen[i].paresEsperados, resumen[i].paresEncontrados,
                                resumen[i].paresEncontrados - resumen[i].paresEsperados) in errores
    ensures resumen[i].cartonesEncontrados != resumen[i].cartonesEsperados
            <==> CartonesNoCuadran(resumen[i].poNumber, resumen[i].cartonesEsperados, resumen[i].cartonesEncontrados,
                                   resumen[i].cartonesEncontrados - resumen[i].cartonesEsperados) in errores
  {
    SummariesRows(pm, keys);
    TalliedDiscrepancy(pm, keys, loopErrors, errores, i);
  }

  /** `SummaryDiscrepancy` for the carton tally and the PO walk of one report. */
  lemma ReportSummaryDiscrepancy(pos: seq<PoCandidate>, cartones: seq<CartonCandidate>,
                                 errores: seq<ShippingError>, resumen: seq<PoSummary>, i: int)
    requires errores == ValidateShippingData(pos, cartones).errores
    requires resumen == ValidateShippingData(pos, cartones).resumen
    requires 0 <= i < |resumen|
    ensures resumen[i].paresEncontrados != resumen[i].paresEsperados
            <==> ParesNoCuadran(resumen[i].poNumber, resumen[i].paresEsperados, resumen[i].paresEncontrados,
                                resumen[i].paresEncontrados - resumen[i].paresEsperados) in errores
    ensures resumen[i].cartonesEncontrados != resumen[i].cartonesEsperados
            <==> CartonesNoCuadran(resumen[i].poNumber, resumen[i].cartonesEsperados, resumen[i].cartonesEncontrados,
                                   resumen[i].cartonesEncontrados - resumen[i].cartonesEsperados) in errores
  {
    var t := TallyCartons(BuildPosMap(pos), cartones);
    ReportErrors(pos, cartones);
    PoKeysDistinct(pos);
    SummaryDiscrepancy(t.posMap, PoKeys(pos), t.errores, errores, resumen, i);
  }

  /** Each `resumen` row's mismatch is reported exactly when its found value differs from the declared one. */
  lemma ResumenErrorsAgree(pos: seq<PoCandidate>, cartones: seq<CartonCandidate>, i: int)
    requires 0 <= i < |ValidateShippingData(pos, cartones).resumen|
    ensures var rep := ValidateShippingData(pos, cartones);
            var r := rep.resumen[i];
            r.paresEncontrados != r.paresEsperados
            <==> ParesNoCuadran(r.poNumber, r.paresEsperados, r.paresEncontrados, r.paresEncontrados - r.paresEsperados)
                 in rep.errores
    ensures var rep := ValidateShippingData(pos, cartones);
            var r := rep.resumen[i];
            r.cartonesEncontrados != r.cartonesEsperados
            <==> CartonesNoCuadran(r.poNumber, r.cartonesEsperados, r.cartonesEncontrados,
                                   r.cartonesEncontrados - r.cartonesEsperados) in rep.errores
  {
    var rep := ValidateShippingData(pos, cartones);
    ReportSummaryDiscrepancy(pos, cartones, rep.errores, rep.resumen, i);
  }

  /** The PO walk reports only pair and carton discrepancies. */
  lemma {:induction false} TotalsErrorsKinds(posMap: map<string, PoTally>, keys: seq<string>)
    requires forall i :: 0 <= i < |keys| ==> keys[i] in posMap
    ensures forall d :: d in TotalsErrors(posMap, keys) ==> d.ParesNoCuadran? || d.CartonesNoCuadran?
  {
    if keys != [] {
      TotalsErrorsKinds(posMap, keys[1..]);
    }
  }

  /** An unknown-PO error of the carton loop names one of its lines, whose PO is not a key. */
  lemma OrphanOrigin(posMap: map<string, PoTally>, cartones: seq<CartonCandidate>, pm: map<string, PoTally>,
                     keys: seq<string>, errores: seq<ShippingError>, e: ShippingError)
    requires forall l :: 0 <= l < |keys| ==> keys[l] in pm
    requires errores == WalkPos(pm, keys, TallyCartons(posMap, cartones).errores)
    requires e in errores && e.PoNoEncontrada?
    ensures e.poNumber !in posMap
    ensures exists c :: c in cartones && c.cartonId == e.cartonId && c.poNumber == e.poNumber
  {
    var orphans := Orphans(posMap.Keys, cartones);
    TallyOrphans(posMap, cartones);
    OrphansMembers(posMap.Keys, cartones);
    var loopErrors := TallyCartons(posMap, cartones).errores;
    WalkPosAppends(pm, keys, loopErrors);
    TotalsErrorsKinds(pm, keys);
    assert e in loopErrors;
    var i :| 0 <= i < |loopErrors| && loopErrors[i] == e;
    assert orphans[i] in orphans;
  }

  /** A reported `PO_NO_ENCONTRADA` names a line whose PO is not declared. */
  lemma OrphanErrorIsReal(pos: seq<PoCandidate>, cartones: seq<CartonCandidate>, e: ShippingError)
    requires e in ValidateShippingData(pos, cartones).errores && e.PoNoEncontrada?
    ensures e.poNumber !in PoNumbers(pos)
    ensures exists c :: c in cartones && c.cartonId == e.cartonId && c.poNumber == e.poNumber
  {
    var t := TallyCartons(BuildPosMap(pos), cartones);
    var keys := PoKeys(pos);
    ReportErrors(pos, cartones);
    KeysTallied(pos, cartones);
    PosMapKeys(pos);
    OrphanOrigin(BuildPosMap(pos), cartones, t.posMap, keys, ValidateShippingData(pos, cartones).errores, e);
  }

  /** A reported pair or carton discrepancy names a declared PO and states its true sums. */
  lemma DiscrepancyIsReal(pos: seq<PoCandidate>, cartones: seq<CartonCandidate>, e: ShippingError)
    requires e in ValidateShippingData(pos, cartones).errores && !e.PoNoEncontrada?
    ensures e.ParesNoCuadran? || e.CartonesNoCuadran?
    ensures e.poNumber in PoNumbers(pos)
    ensures e.ParesNoCuadran? ==>
              && e.esperado == pos[LastDeclaration(pos, e.poNumber)].cantidadPares
              && e.encontrado == PairsFor(cartones, e.poNumber)
              && e.encontrado != e.esperado
              && e.diferencia == e.encontrado - e.esperado
    ensures e.CartonesNoCuadran? ==>
              && e.esperado == pos[LastDeclaration(pos, e.poNumber)].cantidadCartones
              && e.encontrado == |CartonIdsFor(cartones, e.poNumber)|
              && e.encontrado != e.esperado
              && e.diferencia == e.encontrado - e.esperado
  {
    var t := TallyCartons(BuildPosMap(pos), cartones);
    var keys := PoKeys(pos);
    ReportErrors(pos, cartones);
    KeysTallied(pos, cartones);
    var k := TotalsErrorOrigin(t.posMap, keys, t.errores, ValidateShippingData(pos, cartones).errores, e);
    PoKeysMembers(pos);
    ReportTally(pos, cartones, LastDeclaration(pos, k));
  }

  /** Every reported error is one of the three reconciliation kinds and describes a real discrepancy. */
  lemma ReportedErrorsAreReal(pos: seq<PoCandidate>, cartones: seq<CartonCandidate>, e: ShippingError)
    requires e in ValidateShippingData(pos, cartones).errores
    ensures e.PoNoEncontrada? || e.ParesNoCuadran? || e.CartonesNoCuadran?
  {
    if !e.PoNoEncontrada? {
      DiscrepancyIsReal(pos, cartones, e);
    }
  }

  /** `resumen` lists every declared PO exactly once, in `Object.keys` order, with its declared and found totals. */
  lemma ResumenOnePerPo(pos: seq<PoCandidate>, cartones: seq<CartonCandidate>)
    ensures var r := ValidateShippingData(pos, cartones).resumen;
            forall i, l :: 0 <= i < l < |r| ==> r[i].poNumber != r[l].poNumber
    ensures var r := ValidateShippingData(pos, cartones).resumen;
            forall i :: 0 <= i < |r| ==> r[i].poNumber == PoKeys(pos)[i]
    ensures var r := ValidateShippingData(pos, cartones).resumen;
            forall k :: k in PoNumbers(pos) <==> exists i :: 0 <= i < |r| && r[i].poNumber == k
    ensures var r := ValidateShippingData(pos, cartones).resumen;
            forall i :: 0 <= i < |r| ==>
              && r[i].poNumber in PoNumbers(pos)
              && var j := LastDeclaration(pos, r[i].poNumber);
                 r[i] == PoSummary(r[i].poNumber, pos[j].cantidadPares, PairsFor(cartones, r[i].poNumber),
                                   pos[j].cantidadCartones, |CartonIdsFor(cartones, r[i].poNumber)|)
  {
    var r := ValidateShippingData(pos, cartones).resumen;
    var keys := PoKeys(pos);
    KeysTallied(pos, cartones);
    SummariesRows(TallyCartons(BuildPosMap(pos), cartones).posMap, keys);
    PoKeysDistinct(pos);
    PoKeysMembers(pos);
    forall k | k in PoNumbers(pos)
      ensures exists i :: 0 <= i < |r| && r[i].poNumber == k
    {
      var i :| 0 <= i < |keys| && keys[i] == k;
      assert r[i].poNumber == k;
    }
    forall i | 0 <= i < |r|
      ensures r[i].poNumber in PoNumbers(pos)
      ensures var j := LastDeclaration(pos, r[i].poNumber);
              r[i] == PoSummary(r[i].poNumber, pos[j].cantidadPares, PairsFor(cartones, r[i].poNumber),
                                pos[j].cantidadCartones, |CartonIdsFor(cartones, r[i].poNumber)|)
    {
      assert keys[i] in keys;
      ReportTally(pos, cartones, LastDeclaration(pos, keys[i]));
    }
  }
}
