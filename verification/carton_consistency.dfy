/**
 * `validateCartonConsistency`: lines that repeat a (carton, SKU) entry must agree with the entry
 * first seen for it on the quantity per carton and on the PO. Each repeat is compared with that
 * first entry only, quantity before PO.
 */
module CartonConsistency {
  import opened ShippingTypes

  datatype ConsistencyReport = ConsistencyReport(valido: bool, errores: seq<ShippingError>)

  /** The loop state: the first line stored per key, and the errors pushed so far. */
  datatype Scan<K> = Scan(seen: map<K, CartonCandidate>, errores: seq<ShippingError>)

  /** The errors a repeated line raises against the stored line: quantity first, then PO. */
  function Compare(anterior: CartonCandidate, carton: CartonCandidate): seq<ShippingError>
  {
    (if anterior.cantidadPorCarton != carton.cantidadPorCarton
     then [CantidadInconsistente(carton.cartonId, carton.sku, anterior.cantidadPorCarton, carton.cantidadPorCarton)]
     else [])
    + (if anterior.poNumber != carton.poNumber
       then [PoInconsistente(carton.cartonId, carton.sku, anterior.poNumber, carton.poNumber)]
       else [])
  }

  /** Two lines agree when they carry the same quantity per carton and the same PO. */
  predicate Agree(a: CartonCandidate, b: CartonCandidate)
  {
    a.cantidadPorCarton == b.cantidadPorCarton && a.poNumber == b.poNumber
  }

  /** The loop over the lines, with the map keyed by `key`. */
  function ScanFirstSeen<K>(cs: seq<CartonCandidate>, key: CartonCandidate -> K): Scan<K>
  {
    if cs == [] then Scan(map[], [])
    else
      var s := ScanFirstSeen(cs[..|cs| - 1], key);
      var c := cs[|cs| - 1];
      if key(c) in s.seen then Scan(s.seen, s.errores + Compare(s.seen[key(c)], c))
      else Scan(s.seen[key(c) := c], s.errores)
  }

  /** Every two lines sharing a key agree. */
  ghost predicate KeyAgreement<K>(cs: seq<CartonCandidate>, key: CartonCandidate -> K)
  {
    forall i, j :: 0 <= i < j < |cs| && key(cs[i]) == key(cs[j]) ==> Agree(cs[i], cs[j])
  }

  /** The key the source builds: the template string `${cartonId}-${sku}`. */
  function ConsistencyKey(c: CartonCandidate): string
  {
    c.cartonId + "-" + c.sku
  }

  /** The key the check evidently means: the (carton, SKU) pair itself. */
  function PairKey(c: CartonCandidate): (string, string)
  {
    (c.cartonId, c.sku)
  }

  /** `validateCartonConsistency` as written, keyed by the concatenated string. */
  function ValidateCartonConsistency(cs: seq<CartonCandidate>): (r: ConsistencyReport)
    ensures r.valido <==> r.errores == []
  {
    var s := ScanFirstSeen(cs, ConsistencyKey);
    ConsistencyReport(|s.errores| == 0, s.errores)
  }

  /** `validateCartonConsistency` keyed by the (carton, SKU) pair. */
  function ValidateCartonConsistencyByPair(cs: seq<CartonCandidate>): (r: ConsistencyReport)
    ensures r.valido <==> r.errores == []
  {
    var s := ScanFirstSeen(cs, PairKey);
    ConsistencyReport(|s.errores| == 0, s.errores)
  }

  /** The map holds, for each key met so far, a line carrying that key; and no other keys. */
  lemma {:induction false} ScanSeen<K>(cs: seq<CartonCandidate>, key: CartonCandidate -> K)
    ensures forall i :: 0 <= i < |cs| ==> key(cs[i]) in ScanFirstSeen(cs, key).seen
    ensures forall k :: k in ScanFirstSeen(cs, key).seen ==>
              key(ScanFirstSeen(cs, key).seen[k]) == k && ScanFirstSeen(cs, key).seen[k] in cs
  {
    if cs != [] {
      var prefix := cs[..|cs| - 1];
      ScanSeen(prefix, key);
      assert forall i :: 0 <= i < |prefix| ==> prefix[i] == cs[i];
    }
  }

  /** The stored line of a key is the first line carrying it. */
  lemma {:induction false} ScanStoresFirst<K>(cs: seq<CartonCandidate>, key: CartonCandidate -> K, i: int)
    requires 0 <= i < |cs| && forall j :: 0 <= j < i ==> key(cs[j]) != key(cs[i])
    ensures key(cs[i]) in ScanFirstSeen(cs, key).seen
    ensures ScanFirstSeen(cs, key).seen[key(cs[i])] == cs[i]
  {
    var prefix := cs[..|cs| - 1];
    ScanSeen(prefix, key);
    if i < |prefix| {
      assert forall j :: 0 <= j < i ==> prefix[j] == cs[j];
      ScanStoresFirst(prefix, key, i);
    } else {
      assert forall j :: 0 <= j < |prefix| ==> prefix[j] == cs[j] && key(prefix[j]) != key(cs[i]);
    }
  }

  /** Agreement on a manifest carries over to its prefixes. */
  lemma AgreementPrefix<K>(cs: seq<CartonCandidate>, key: CartonCandidate -> K, n: nat)
    requires KeyAgreement(cs, key) && n <= |cs|
    ensures KeyAgreement(cs[..n], key)
  {
    assert forall i :: 0 <= i < n ==> cs[..n][i] == cs[i];
  }

  /** A line that agrees with every earlier line of its key keeps the manifest in agreement. */
  lemma AgreementExtend<K>(prefix: seq<CartonCandidate>, c: CartonCandidate, key: CartonCandidate -> K)
    requires KeyAgreement(prefix, key)
    requires forall i :: 0 <= i < |prefix| && key(prefix[i]) == key(c) ==> Agree(prefix[i], c)
    ensures KeyAgreement(prefix + [c], key)
  {
    var cs := prefix + [c];
    forall i, j | 0 <= i < j < |cs| && key(cs[i]) == key(cs[j])
      ensures Agree(cs[i], cs[j])
    {
      if j < |prefix| {
        assert Agree(prefix[i], prefix[j]);
      } else {
        assert cs[i] == prefix[i];
      }
    }
  }

  /** A scan that reports nothing has found every two lines sharing a key in agreement. */
  lemma {:induction false} ScanValidImpliesAgreement<K>(cs: seq<CartonCandidate>, key: CartonCandidate -> K)
    requires ScanFirstSeen(cs, key).errores == []
    ensures KeyAgreement(cs, key)
  {
    if cs != [] {
      var prefix := cs[..|cs| - 1];
      var c := cs[|cs| - 1];
      var s := ScanFirstSeen(prefix, key);
      assert cs == prefix + [c];
      assert s.errores == [];
      ScanValidImpliesAgreement(prefix, key);
      if key(c) in s.seen {
        var p := s.seen[key(c)];
        ScanSeen(prefix, key);
        assert Compare(p, c) == [];
        var ip :| 0 <= ip < |prefix| && prefix[ip] == p;
        forall i | 0 <= i < |prefix| && key(prefix[i]) == key(c)
          ensures Agree(prefix[i], c)
        {
          if i < ip {
            assert Agree(prefix[i], prefix[ip]);
          } else if ip < i {
            assert Agree(prefix[ip], prefix[i]);
          }
        }
      } else {
        ScanSeen(prefix, key);
      }
      AgreementExtend(prefix, c, key);
    }
  }

  /** When every two lines sharing a key agree, the scan reports nothing. */
  lemma {:induction false} AgreementImpliesScanValid<K>(cs: seq<CartonCandidate>, key: CartonCandidate -> K)
    requires KeyAgreement(cs, key)
    ensures ScanFirstSeen(cs, key).errores == []
  {
    if cs != [] {
      var prefix := cs[..|cs| - 1];
      var c := cs[|cs| - 1];
      var s := ScanFirstSeen(prefix, key);
      AgreementPrefix(cs, key, |cs| - 1);
      AgreementImpliesScanValid(prefix, key);
      if key(c) in s.seen {
        ScanSeen(prefix, key);
        var p := s.seen[key(c)];
        var ip :| 0 <= ip < |prefix| && prefix[ip] == p;
        assert cs[ip] == p;
        assert Agree(cs[ip], cs[|cs| - 1]);
      }
    }
  }

  /** The check reports nothing exactly when every two lines sharing a key agree. */
  lemma ScanValidIffAgreement<K>(cs: seq<CartonCandidate>, key: CartonCandidate -> K)
    ensures ScanFirstSeen(cs, key).errores == [] <==> KeyAgreement(cs, key)
  {
    if ScanFirstSeen(cs, key).errores == [] {
      ScanValidImpliesAgreement(cs, key);
    }
    if KeyAgreement(cs, key) {
      AgreementImpliesScanValid(cs, key);
    }
  }

  /** As written: valid exactly when every two lines with the same concatenated key agree. */
  lemma ConsistencyValidIffAgreement(cs: seq<CartonCandidate>)
    ensures ValidateCartonConsistency(cs).valido <==> KeyAgreement(cs, ConsistencyKey)
  {
    ScanValidIffAgreement(cs, ConsistencyKey);
  }

  /** Corrected: valid exactly when every two lines for the same (carton, SKU) agree. */
  lemma ByPairValidIffAgreement(cs: seq<CartonCandidate>)
    ensures ValidateCartonConsistencyByPair(cs).valido
            <==> forall i, j :: 0 <= i < j < |cs| && cs[i].cartonId == cs[j].cartonId && cs[i].sku == cs[j].sku
                                ==> Agree(cs[i], cs[j])
  {
    ScanValidIffAgreement(cs, PairKey);
  }

  /** A manifest that never repeats a (carton, SKU) pair passes the corrected check. */
  lemma DistinctPairsValid(cs: seq<CartonCandidate>)
    requires forall i, j :: 0 <= i < j < |cs| ==> PairKey(cs[i]) != PairKey(cs[j])
    ensures ValidateCartonConsistencyByPair(cs).valido
  {
    ScanValidIffAgreement(cs, PairKey);
  }

  /** A manifest that never repeats a concatenated key passes the check as written. */
  lemma DistinctKeysValid(cs: seq<CartonCandidate>)
    requires forall i, j :: 0 <= i < j < |cs| ==> ConsistencyKey(cs[i]) != ConsistencyKey(cs[j])
    ensures ValidateCartonConsistency(cs).valido
  {
    ScanValidIffAgreement(cs, ConsistencyKey);
  }

  /** Whatever passes the check as written passes the corrected one: the string key only merges more lines. */
  lemma AsWrittenImpliesByPair(cs: seq<CartonCandidate>)
    ensures ValidateCartonConsistency(cs).valido ==> ValidateCartonConsistencyByPair(cs).valido
  {
    ScanValidIffAgreement(cs, ConsistencyKey);
    ScanValidIffAgreement(cs, PairKey);
  }

  /** Without two different pairs sharing a concatenated key, both checks give the same report. */
  lemma NoCollisionSameReport(cs: seq<CartonCandidate>)
    requires forall i, j :: 0 <= i < |cs| && 0 <= j < |cs| && ConsistencyKey(cs[i]) == ConsistencyKey(cs[j])
                            ==> PairKey(cs[i]) == PairKey(cs[j])
    ensures ValidateCartonConsistency(cs) == ValidateCartonConsistencyByPair(cs)
  {
    EquivalentKeysSameErrors(cs, ConsistencyKey, PairKey);
  }

  /**
   * Carton "A-B" with SKU "C" and carton "A" with SKU "B-C" both build the key "A-B-C": the check
   * as written flags two unrelated lines, the pair-keyed check accepts them.
   */
  lemma KeyCollision()
    ensures var cs := [CartonCandidate("A-B", "C", 12, "PO1"), CartonCandidate("A", "B-C", 6, "PO2")];
            && ValidateCartonConsistency(cs).errores
               == [CantidadInconsistente("A", "B-C", 12, 6), PoInconsistente("A", "B-C", "PO1", "PO2")]
            && !ValidateCartonConsistency(cs).valido
            && ValidateCartonConsistencyByPair(cs).valido
  {
    var cs := [CartonCandidate("A-B", "C", 12, "PO1"), CartonCandidate("A", "B-C", 6, "PO2")];
    assert ConsistencyKey(cs[0]) == "A-B-C" == ConsistencyKey(cs[1]);
    assert cs[..1] == [cs[0]] && [cs[0]][..0] == [];
    assert ScanFirstSeen([], ConsistencyKey) == Scan(map[], []);
    var s0 := ScanFirstSeen(cs[..1], ConsistencyKey);
    assert s0 == ScanFirstSeen([cs[0]], ConsistencyKey);
    assert ScanFirstSeen([cs[0]], ConsistencyKey) == Scan(map[][ConsistencyKey(cs[0]) := cs[0]], []);
    assert s0 == Scan(map["A-B-C" := cs[0]], []);
    assert ScanFirstSeen(cs, ConsistencyKey).errores == Compare(cs[0], cs[1]);
    DistinctPairsValid(cs);
  }

  /** The index of the first line at or after `i` that carries the key of line `j`. */
  ghost function FirstFrom<K>(cs: seq<CartonCandidate>, key: CartonCandidate -> K, j: nat, i: nat): (f: nat)
    requires i <= j < |cs|
    ensures i <= f <= j && key(cs[f]) == key(cs[j])
    ensures forall l :: i <= l < f ==> key(cs[l]) != key(cs[j])
    decreases j - i
  {
    if key(cs[i]) == key(cs[j]) then i else FirstFrom(cs, key, j, i + 1)
  }

  /** The index of the first line of the manifest that carries the key of line `j`. */
  ghost function FirstOfKey<K>(cs: seq<CartonCandidate>, key: CartonCandidate -> K, j: nat): (f: nat)
    requires j < |cs|
    ensures f <= j && key(cs[f]) == key(cs[j])
    ensures forall i :: 0 <= i < f ==> key(cs[i]) != key(cs[j])
  {
    FirstFrom(cs, key, j, 0)
  }

  /**
   * Reference definition of the errors: the lines in order, each line that is not the first of its
   * key compared with the first line of its key.
   */
  ghost function RepeatErrors<K>(cs: seq<CartonCandidate>, key: CartonCandidate -> K): seq<ShippingError>
  {
    if cs == [] then []
    else
      var f := FirstOfKey(cs, key, |cs| - 1);
      RepeatErrors(cs[..|cs| - 1], key) + (if f < |cs| - 1 then Compare(cs[f], cs[|cs| - 1]) else [])
  }

  /** One step of the reference errors: the last line against the first line of its key. */
  lemma RepeatErrorsStep<K>(cs: seq<CartonCandidate>, key: CartonCandidate -> K)
    requires cs != []
    ensures var f := FirstOfKey(cs, key, |cs| - 1);
            RepeatErrors(cs, key)
            == RepeatErrors(cs[..|cs| - 1], key) + (if f < |cs| - 1 then Compare(cs[f], cs[|cs| - 1]) else [])
  {
  }

  /** When the scan reaches the last line, its map holds the first line of that key, if any. */
  lemma SeenHoldsFirst<K>(cs: seq<CartonCandidate>, key: CartonCandidate -> K)
    requires cs != []
    ensures var s := ScanFirstSeen(cs[..|cs| - 1], key);
            var f := FirstOfKey(cs, key, |cs| - 1);
            var k := key(cs[|cs| - 1]);
            && (f < |cs| - 1 ==> k in s.seen && s.seen[k] == cs[f])
            && (f == |cs| - 1 ==> k !in s.seen)
  {
    var n := |cs|;
    var prefix := cs[..n - 1];
    var k := key(cs[n - 1]);
    var s := ScanFirstSeen(prefix, key);
    var f := FirstOfKey(cs, key, n - 1);
    ScanSeen(prefix, key);
    if f < n - 1 {
      assert prefix[f] == cs[f];
      assert forall i :: 0 <= i < f ==> prefix[i] == cs[i];
      ScanStoresFirst(prefix, key, f);
    }
  }

  /**
   * The scan reports exactly the reference errors: every line that repeats a key is compared with
   * the first line of that key, and with no other line, in manifest order.
   */
  lemma {:induction false} ScanComparesWithFirst<K>(cs: seq<CartonCandidate>, key: CartonCandidate -> K)
    ensures ScanFirstSeen(cs, key).errores == RepeatErrors(cs, key)
  {
    if cs != [] {
      ScanComparesWithFirst(cs[..|cs| - 1], key);
      RepeatErrorsStep(cs, key);
      SeenHoldsFirst(cs, key);
    }
  }

  /** Two keys that group the lines of a manifest alike pick the same first line for every line. */
  lemma FirstOfKeyEquivalent<K1, K2>(
    cs: seq<CartonCandidate>, key1: CartonCandidate -> K1, key2: CartonCandidate -> K2, j: nat)
    requires j < |cs|
    requires forall i :: 0 <= i < |cs| ==> (key1(cs[i]) == key1(cs[j]) <==> key2(cs[i]) == key2(cs[j]))
    ensures FirstOfKey(cs, key1, j) == FirstOfKey(cs, key2, j)
  {
    var f1 := FirstOfKey(cs, key1, j);
    var f2 := FirstOfKey(cs, key2, j);
    assert key2(cs[f1]) == key2(cs[j]) && key1(cs[f2]) == key1(cs[j]);
  }

  /**
   * Two keys that group the lines of a manifest alike make the scan report the same errors: each
   * repeat is compared with the same first line under either key.
   */
  lemma {:induction false} EquivalentKeysSameErrors<K1, K2>(
    cs: seq<CartonCandidate>, key1: CartonCandidate -> K1, key2: CartonCandidate -> K2)
    requires forall i, j :: 0 <= i < |cs| && 0 <= j < |cs| ==> (key1(cs[i]) == key1(cs[j]) <==> key2(cs[i]) == key2(cs[j]))
    ensures ScanFirstSeen(cs, key1).errores == ScanFirstSeen(cs, key2).errores
  {
    ScanComparesWithFirst(cs, key1);
    ScanComparesWithFirst(cs, key2);
    RepeatErrorsEquivalent(cs, key1, key2);
  }

  /** The reference errors under two keys that group the lines alike. */
  lemma {:induction false} RepeatErrorsEquivalent<K1, K2>(
    cs: seq<CartonCandidate>, key1: CartonCandidate -> K1, key2: CartonCandidate -> K2)
    requires forall i, j :: 0 <= i < |cs| && 0 <= j < |cs| ==> (key1(cs[i]) == key1(cs[j]) <==> key2(cs[i]) == key2(cs[j]))
    ensures RepeatErrors(cs, key1) == RepeatErrors(cs, key2)
  {
    if cs != [] {
      var prefix := cs[..|cs| - 1];
      assert forall i :: 0 <= i < |prefix| ==> prefix[i] == cs[i];
      RepeatErrorsEquivalent(prefix, key1, key2);
      RepeatErrorsStep(cs, key1);
      RepeatErrorsStep(cs, key2);
      FirstOfKeyEquivalent(cs, key1, key2, |cs| - 1);
    }
  }

  /**
   * As written: the errors of `validateCartonConsistency` are the reference errors under the
   * concatenated key, each repeat compared with the first line carrying the same string.
   */
  lemma ComparedWithFirst(cs: seq<CartonCandidate>)
    ensures ValidateCartonConsistency(cs).errores == RepeatErrors(cs, ConsistencyKey)
  {
    ScanComparesWithFirst(cs, ConsistencyKey);
  }

  /**
   * Every repeat is compared with the first line of its key, never with the previous repeat: the
   * third line, equal to the second, is still reported against the first.
   */
  lemma ComparedWithFirstOnly()
    ensures var cs := [CartonCandidate("C1", "S", 12, "PO1"), CartonCandidate("C1", "S", 6, "PO1"),
                       CartonCandidate("C1", "S", 6, "PO1")];
            ValidateCartonConsistency(cs).errores
            == [CantidadInconsistente("C1", "S", 12, 6), CantidadInconsistente("C1", "S", 12, 6)]
  {
    var cs := [CartonCandidate("C1", "S", 12, "PO1"), CartonCandidate("C1", "S", 6, "PO1"),
               CartonCandidate("C1", "S", 6, "PO1")];
    var k := ConsistencyKey(cs[0]);
    assert ConsistencyKey(cs[1]) == k && ConsistencyKey(cs[2]) == k;
    assert cs[..2] == [cs[0], cs[1]] && cs[..2][..1] == [cs[0]] && [cs[0]][..0] == [];
    assert ScanFirstSeen([], ConsistencyKey) == Scan(map[], []);
    assert ScanFirstSeen([cs[0]], ConsistencyKey) == Scan(map[k := cs[0]], []);
    var s2 := ScanFirstSeen(cs[..2], ConsistencyKey);
    assert s2 == Scan(map[k := cs[0]], [CantidadInconsistente("C1", "S", 12, 6)]);
  }
}
