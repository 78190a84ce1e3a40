/**
 * `identificarTipoCartones`: groups the carton lines by `cartonId` in a plain object, walks the
 * groups in `Object.keys` order and tags every line of a group MUSICAL when the group holds more
 * than one distinct SKU, MONO otherwise.
 */
module CartonClassifier {
  import opened ShippingTypes
  import opened JsObject

  /** The `cartonId` of every line, in line order: the keys the grouping loop assigns. */
  function CartonIds(cs: seq<CartonCandidate>): seq<string>
  {
    if cs == [] then [] else [cs[0].cartonId] + CartonIds(cs[1..])
  }

  /** `cartonesMap[k]`: the lines of carton `k`, in line order. */
  function LinesWithId(cs: seq<CartonCandidate>, k: string): seq<CartonCandidate>
  {
    if cs == [] then []
    else (if cs[0].cartonId == k then [cs[0]] else []) + LinesWithId(cs[1..], k)
  }

  /** `new Set(cartonesDelId.map(c => c.sku))`. */
  function SkusOf(lines: seq<CartonCandidate>): set<string>
  {
    set c | c in lines :: c.sku
  }

  function TipoFor(lines: seq<CartonCandidate>): Tipo
  {
    if |SkusOf(lines)| > 1 then Musical else Mono
  }

  function TagAll(lines: seq<CartonCandidate>, tipo: Tipo): seq<TypedCarton>
  {
    seq(|lines|, i requires 0 <= i < |lines| => TypedCarton(lines[i], tipo))
  }

  /** The walk over the groups named by `keys`, pushing each group's lines with the group's tipo. */
  function ClassifyGroups(cs: seq<CartonCandidate>, keys: seq<string>): seq<TypedCarton>
  {
    if keys == [] then []
    else
      var g := LinesWithId(cs, keys[0]);
      TagAll(g, TipoFor(g)) + ClassifyGroups(cs, keys[1..])
  }

  /** The carton lines without their tags. */
  function Untag(ts: seq<TypedCarton>): (r: seq<CartonCandidate>)
    ensures |r| == |ts|
  {
    seq(|ts|, i requires 0 <= i < |ts| => ts[i].carton)
  }

  /** Reference definition: the SKUs that carton `k` carries anywhere in the manifest. */
  function CartonSkus(cs: seq<CartonCandidate>, k: string): set<string>
  {
    set c | c in cs && c.cartonId == k :: c.sku
  }

  /** Reference definition: a carton is MUSICAL exactly when it carries more than one SKU. */
  function CartonTipo(cs: seq<CartonCandidate>, k: string): Tipo
  {
    if |CartonSkus(cs, k)| > 1 then Musical else Mono
  }

  /** Lines sharing a carton id form one block. */
  predicate Contiguous(ts: seq<TypedCarton>)
  {
    forall i, j, l :: 0 <= i < j < l < |ts| && ts[i].carton.cartonId == ts[l].carton.cartonId
                      ==> ts[j].carton.cartonId == ts[i].carton.cartonId
  }

  lemma {:induction false} CartonIdsMembers(cs: seq<CartonCandidate>)
    ensures forall k :: k in CartonIds(cs) <==> exists c :: c in cs && c.cartonId == k
  {
    if cs != [] {
      CartonIdsMembers(cs[1..]);
      assert cs == [cs[0]] + cs[1..];
    }
  }

  /** The group of `k` holds exactly the lines of carton `k`. */
  lemma {:induction false} LinesWithIdMembers(cs: seq<CartonCandidate>, k: string)
    ensures forall c :: c in LinesWithId(cs, k) <==> c in cs && c.cartonId == k
  {
    if cs != [] {
      LinesWithIdMembers(cs[1..], k);
      assert cs == [cs[0]] + cs[1..];
    }
  }

  /** A carton with no line has an empty group. */
  lemma {:induction false} LinesWithIdAbsent(cs: seq<CartonCandidate>, k: string)
    requires k !in CartonIds(cs)
    ensures LinesWithId(cs, k) == []
  {
    if cs != [] {
      LinesWithIdAbsent(cs[1..], k);
    }
  }

  /** The group of `k` holds every line of carton `k` as often as the manifest does. */
  lemma {:induction false} LinesWithIdCount(cs: seq<CartonCandidate>, k: string, x: CartonCandidate)
    ensures multiset(LinesWithId(cs, k))[x] == if x.cartonId == k then multiset(cs)[x] else 0
  {
    if cs != [] {
      LinesWithIdCount(cs[1..], k, x);
      assert cs == [cs[0]] + cs[1..];
    }
  }

  lemma {:induction false} LinesWithIdAppend(a: seq<CartonCandidate>, b: seq<CartonCandidate>, k: string)
    ensures LinesWithId(a + b, k) == LinesWithId(a, k) + LinesWithId(b, k)
  {
    if a != [] {
      LinesWithIdAppend(a[1..], b, k);
      assert (a + b)[0] == a[0] && (a + b)[1..] == a[1..] + b;
      var head := if a[0].cartonId == k then [a[0]] else [];
      assert LinesWithId(a + b, k) == head + (LinesWithId(a[1..], k) + LinesWithId(b, k));
      assert LinesWithId(a, k) == head + LinesWithId(a[1..], k);
    } else {
      assert a + b == b;
    }
  }

  /** Filtering a group again by its own id keeps it; by another id empties it. */
  lemma {:induction false} LinesWithIdTwice(cs: seq<CartonCandidate>, k: string, k': string)
    ensures LinesWithId(LinesWithId(cs, k), k') == if k == k' then LinesWithId(cs, k) else []
  {
    if cs != [] {
      var head := if cs[0].cartonId == k then [cs[0]] else [];
      LinesWithIdTwice(cs[1..], k, k');
      LinesWithIdAppend(head, LinesWithId(cs[1..], k), k');
    }
  }

  /** A group's SKU set is its carton's SKU set over the whole manifest. */
  lemma GroupSkus(cs: seq<CartonCandidate>, k: string)
    ensures SkusOf(LinesWithId(cs, k)) == CartonSkus(cs, k)
  {
    LinesWithIdMembers(cs, k);
  }

  lemma UntagAppend(a: seq<TypedCarton>, b: seq<TypedCarton>)
    ensures Untag(a + b) == Untag(a) + Untag(b)
  {
  }

  lemma UntagTagAll(lines: seq<CartonCandidate>, tipo: Tipo)
    ensures Untag(TagAll(lines, tipo)) == lines
  {
  }

  /** Over distinct keys, the walk outputs each line of a walked carton as often as the manifest holds it. */
  lemma {:induction false} ClassifyGroupsCount(cs: seq<CartonCandidate>, keys: seq<string>, x: CartonCandidate)
    requires Distinct(keys)
    ensures multiset(Untag(ClassifyGroups(cs, keys)))[x] == if x.cartonId in keys then multiset(cs)[x] else 0
  {
    if keys != [] {
      var g := LinesWithId(cs, keys[0]);
      var rest := ClassifyGroups(cs, keys[1..]);
      DistinctTail(keys);
      ClassifyGroupsCount(cs, keys[1..], x);
      UntagAppend(TagAll(g, TipoFor(g)), rest);
      UntagTagAll(g, TipoFor(g));
      LinesWithIdCount(cs, keys[0], x);
      assert forall k :: k in keys <==> k == keys[0] || k in keys[1..] by {
        assert keys == [keys[0]] + keys[1..];
      }
    }
  }

  /** Every output line is a manifest line of a walked carton, tagged with its carton's reference tipo. */
  lemma {:induction false} ClassifyGroupsRows(cs: seq<CartonCandidate>, keys: seq<string>)
    ensures forall i :: 0 <= i < |ClassifyGroups(cs, keys)| ==>
              && ClassifyGroups(cs, keys)[i].carton in cs
              && ClassifyGroups(cs, keys)[i].carton.cartonId in keys
              && ClassifyGroups(cs, keys)[i].tipo == CartonTipo(cs, ClassifyGroups(cs, keys)[i].carton.cartonId)
  {
    if keys != [] {
      var g := LinesWithId(cs, keys[0]);
      var head := TagAll(g, TipoFor(g));
      var rest := ClassifyGroups(cs, keys[1..]);
      var out: seq<TypedCarton> := head + rest;
      ClassifyGroupsRows(cs, keys[1..]);
      LinesWithIdMembers(cs, keys[0]);
      GroupSkus(cs, keys[0]);
      forall i | 0 <= i < |out|
        ensures out[i].carton in cs
        ensures out[i].carton.cartonId in keys
        ensures out[i].tipo == CartonTipo(cs, out[i].carton.cartonId)
      {
        if i < |head| {
          assert g[i] in g;
        } else {
          assert out[i] == rest[i - |head|];
          assert rest[i - |head|].carton.cartonId in keys[1..];
        }
      }
    }
  }

  /** A block of one carton followed by a contiguous walk that never names that carton is contiguous. */
  lemma ContiguousAppend(head: seq<TypedCarton>, rest: seq<TypedCarton>, k: string)
    requires forall x :: 0 <= x < |head| ==> head[x].carton.cartonId == k
    requires forall x :: 0 <= x < |rest| ==> rest[x].carton.cartonId != k
    requires Contiguous(rest)
    ensures Contiguous(head + rest)
  {
    var out := head + rest;
    forall i, j, l | 0 <= i < j < l < |out| && out[i].carton.cartonId == out[l].carton.cartonId
      ensures out[j].carton.cartonId == out[i].carton.cartonId
    {
      if |head| <= i {
        assert out[i] == rest[i - |head|] && out[j] == rest[j - |head|] && out[l] == rest[l - |head|];
      } else if |head| <= l {
        assert false;
      }
    }
  }

  /** Over distinct keys, the walk outputs each carton as one block. */
  lemma {:induction false} ClassifyGroupsContiguous(cs: seq<CartonCandidate>, keys: seq<string>)
    requires Distinct(keys)
    ensures Contiguous(ClassifyGroups(cs, keys))
  {
    if keys != [] {
      var g := LinesWithId(cs, keys[0]);
      var head := TagAll(g, TipoFor(g));
      var rest := ClassifyGroups(cs, keys[1..]);
      DistinctTail(keys);
      ClassifyGroupsContiguous(cs, keys[1..]);
      ClassifyGroupsRows(cs, keys[1..]);
      LinesWithIdMembers(cs, keys[0]);
      forall x | 0 <= x < |head|
        ensures head[x].carton.cartonId == keys[0]
      {
        assert head[x].carton == g[x] && g[x] in g;
      }
      ContiguousAppend(head, rest, keys[0]);
    }
  }

  /** Over distinct keys, the lines of a walked carton come out in their manifest order. */
  lemma {:induction false} ClassifyGroupsOrder(cs: seq<CartonCandidate>, keys: seq<string>, k: string)
    requires Distinct(keys)
    ensures LinesWithId(Untag(ClassifyGroups(cs, keys)), k) == if k in keys then LinesWithId(cs, k) else []
  {
    if keys != [] {
      var g := LinesWithId(cs, keys[0]);
      var rest := ClassifyGroups(cs, keys[1..]);
      DistinctTail(keys);
      ClassifyGroupsOrder(cs, keys[1..], k);
      UntagAppend(TagAll(g, TipoFor(g)), rest);
      UntagTagAll(g, TipoFor(g));
      LinesWithIdAppend(g, Untag(rest), k);
      LinesWithIdTwice(cs, keys[0], k);
      assert k in keys <==> k == keys[0] || k in keys[1..] by {
        assert keys == [keys[0]] + keys[1..];
      }
    }
  }

  /** `identificarTipoCartones`: every line once, tagged, grouped in `Object.keys(cartonesMap)` order. */
  function IdentificarTipoCartones(cs: seq<CartonCandidate>): (r: seq<TypedCarton>)
    ensures multiset(Untag(r)) == multiset(cs)
  {
    var keys := OwnKeys(FirstAssigned(CartonIds(cs)));
    OwnKeysOfObject(CartonIds(cs));
    CartonIdsMembers(cs);
    forall x ensures multiset(Untag(ClassifyGroups(cs, keys)))[x] == multiset(cs)[x] {
      ClassifyGroupsCount(cs, keys, x);
      if x in cs {
        assert x.cartonId in CartonIds(cs);
      }
    }
    ClassifyGroups(cs, keys)
  }

  /** Every output line is tagged MUSICAL exactly when its carton carries more than one SKU in the manifest. */
  lemma TipoFollowsSkus(cs: seq<CartonCandidate>)
    ensures var r := IdentificarTipoCartones(cs);
            forall i :: 0 <= i < |r| ==>
              (r[i].tipo == Musical <==> |CartonSkus(cs, r[i].carton.cartonId)| > 1)
  {
    ClassifyGroupsRows(cs, OwnKeys(FirstAssigned(CartonIds(cs))));
  }

  /** Lines of one carton share a tipo. */
  lemma SameCartonSameTipo(cs: seq<CartonCandidate>)
    ensures var r := IdentificarTipoCartones(cs);
            forall i, j :: 0 <= i < |r| && 0 <= j < |r| && r[i].carton.cartonId == r[j].carton.cartonId
                           ==> r[i].tipo == r[j].tipo
  {
    ClassifyGroupsRows(cs, OwnKeys(FirstAssigned(CartonIds(cs))));
  }

  /** A carton's reference tipo depends only on which lines the manifest holds, not on their order. */
  lemma {:induction false} CartonTipoReorder(cs: seq<CartonCandidate>, ds: seq<CartonCandidate>, k: string)
    requires multiset(cs) == multiset(ds)
    ensures CartonTipo(cs, k) == CartonTipo(ds, k)
  {
    forall c ensures c in cs <==> c in ds {
      assert c in cs <==> c in multiset(cs);
      assert c in ds <==> c in multiset(ds);
    }
    assert CartonSkus(cs, k) == CartonSkus(ds, k);
  }

  /** Reordering the manifest never changes the tipo a line receives. */
  lemma ReorderKeepsTipo(cs: seq<CartonCandidate>, ds: seq<CartonCandidate>, i: int, j: int)
    requires multiset(cs) == multiset(ds)
    requires 0 <= i < |IdentificarTipoCartones(cs)| && 0 <= j < |IdentificarTipoCartones(ds)|
    requires IdentificarTipoCartones(cs)[i].carton.cartonId == IdentificarTipoCartones(ds)[j].carton.cartonId
    ensures IdentificarTipoCartones(cs)[i].tipo == IdentificarTipoCartones(ds)[j].tipo
  {
    ClassifyGroupsRows(cs, OwnKeys(FirstAssigned(CartonIds(cs))));
    ClassifyGroupsRows(ds, OwnKeys(FirstAssigned(CartonIds(ds))));
    CartonTipoReorder(cs, ds, IdentificarTipoCartones(cs)[i].carton.cartonId);
  }

  /** The lines of one carton come out as one block. */
  lemma CartonsContiguous(cs: seq<CartonCandidate>)
    ensures Contiguous(IdentificarTipoCartones(cs))
  {
    OwnKeysOfObject(CartonIds(cs));
    ClassifyGroupsContiguous(cs, OwnKeys(FirstAssigned(CartonIds(cs))));
  }

  /** Within a carton, lines keep their manifest order. */
  lemma CartonLinesKeepOrder(cs: seq<CartonCandidate>, k: string)
    ensures LinesWithId(Untag(IdentificarTipoCartones(cs)), k) == LinesWithId(cs, k)
  {
    var keys := OwnKeys(FirstAssigned(CartonIds(cs)));
    OwnKeysOfObject(CartonIds(cs));
    CartonIdsMembers(cs);
    ClassifyGroupsOrder(cs, keys, k);
    if k !in keys {
      LinesWithIdAbsent(cs, k);
    }
  }
}
