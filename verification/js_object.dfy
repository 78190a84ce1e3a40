/**
 * The order in which `Object.keys` lists the own properties of a plain object used as a
 * dictionary: keys that are array indices (canonical decimal integers below 2^32 - 1) come first
 * in ascending numeric order, every other string key follows in insertion order, and
 * re-assigning an existing key does not move it. Both `validateShippingData` and
 * `identificarTipoCartones` build such objects and walk them with `Object.keys`.
 */
module JsObject {
  import opened Text

  /** The largest array index, 2^32 - 2. */
  const MaxArrayIndex: nat := 4294967294

  predicate Distinct<T(==)>(s: seq<T>)
  {
    forall i, j :: 0 <= i < j < |s| ==> s[i] != s[j]
  }

  predicate AllDigits(s: string)
  {
    forall i :: 0 <= i < |s| ==> IsDigit(s[i])
  }

  /** The decimal value of the digits of `s` (only meaningful when `AllDigits(s)`). */
  function DigitsValue(s: string): nat
  {
    if s == [] then 0
    else
      var c := s[|s| - 1];
      DigitsValue(s[..|s| - 1]) * 10 + (if IsDigit(c) then c as int - '0' as int else 0)
  }

  /** A key the engine treats as an integer index: no sign, no leading zero, below 2^32 - 1. */
  predicate IsArrayIndex(k: string)
  {
    && |k| > 0
    && AllDigits(k)
    && (k[0] != '0' || |k| == 1)
    && DigitsValue(k) <= MaxArrayIndex
  }

  predicate AllIndices(s: seq<string>)
  {
    forall i :: 0 <= i < |s| ==> IsArrayIndex(s[i])
  }

  predicate Ascending(s: seq<string>)
  {
    forall i, j :: 0 <= i < j < |s| ==> DigitsValue(s[i]) <= DigitsValue(s[j])
  }

  /** The array-index keys of `keys`, in their original order. */
  function IndexKeys(keys: seq<string>): seq<string>
  {
    if keys == [] then []
    else (if IsArrayIndex(keys[0]) then [keys[0]] else []) + IndexKeys(keys[1..])
  }

  /** The remaining (string) keys of `keys`, in their original order. */
  function NamedKeys(keys: seq<string>): seq<string>
  {
    if keys == [] then []
    else (if IsArrayIndex(keys[0]) then [] else [keys[0]]) + NamedKeys(keys[1..])
  }

  lemma {:induction false} IndexKeysAreIndices(keys: seq<string>)
    ensures AllIndices(IndexKeys(keys))
  {
    if keys != [] {
      IndexKeysAreIndices(keys[1..]);
      var r := IndexKeys(keys[1..]);
      var h := if IsArrayIndex(keys[0]) then [keys[0]] else [];
      assert forall i :: 0 <= i < |h + r| ==> (h + r)[i] == if i < |h| then h[i] else r[i - |h|];
    }
  }

  lemma {:induction false} NamedKeysAreNames(keys: seq<string>)
    ensures forall i :: 0 <= i < |NamedKeys(keys)| ==> !IsArrayIndex(NamedKeys(keys)[i])
  {
    if keys != [] {
      NamedKeysAreNames(keys[1..]);
      var r := NamedKeys(keys[1..]);
      var h := if IsArrayIndex(keys[0]) then [] else [keys[0]];
      assert forall i :: 0 <= i < |h + r| ==> (h + r)[i] == if i < |h| then h[i] else r[i - |h|];
    }
  }

  lemma {:induction false} SplitKeys(keys: seq<string>)
    ensures multiset(IndexKeys(keys)) + multiset(NamedKeys(keys)) == multiset(keys)
  {
    if keys != [] {
      SplitKeys(keys[1..]);
      assert keys == [keys[0]] + keys[1..];
    }
  }

  lemma {:induction false} NamedKeysAppend(a: seq<string>, b: seq<string>)
    ensures NamedKeys(a + b) == NamedKeys(a) + NamedKeys(b)
  {
    if a != [] {
      assert (a + b)[1..] == a[1..] + b;
      NamedKeysAppend(a[1..], b);
    } else {
      assert a + b == b;
    }
  }

  lemma {:induction false} NamedKeysOfIndices(s: seq<string>)
    requires AllIndices(s)
    ensures NamedKeys(s) == []
  {
    if s != [] {
      NamedKeysOfIndices(s[1..]);
    }
  }

  lemma {:induction false} NamedKeysOfNames(s: seq<string>)
    requires forall i :: 0 <= i < |s| ==> !IsArrayIndex(s[i])
    ensures NamedKeys(s) == s
  {
    if s != [] {
      NamedKeysOfNames(s[1..]);
    }
  }

  /** Inserts `k` before the first key of `s` with a value not below its own. */
  function InsertAscending(k: string, s: seq<string>): seq<string>
  {
    if s == [] || DigitsValue(k) <= DigitsValue(s[0]) then [k] + s
    else [s[0]] + InsertAscending(k, s[1..])
  }

  lemma {:induction false} InsertAscendingKeys(k: string, s: seq<string>)
    ensures multiset(InsertAscending(k, s)) == multiset(s) + multiset{k}
  {
    if s != [] && DigitsValue(k) > DigitsValue(s[0]) {
      InsertAscendingKeys(k, s[1..]);
      assert s == [s[0]] + s[1..];
    }
  }

  /** Putting a key no larger than every key of an ascending sequence in front keeps it ascending. */
  lemma ConsAscending(k: string, s: seq<string>)
    requires Ascending(s)
    requires forall x :: x in multiset(s) ==> DigitsValue(k) <= DigitsValue(x)
    ensures Ascending([k] + s)
  {
    var r := [k] + s;
    forall i, j | 0 <= i < j < |r|
      ensures DigitsValue(r[i]) <= DigitsValue(r[j])
    {
      assert r[j] == s[j - 1];
      if i == 0 {
        assert s[j - 1] in multiset(s);
      } else {
        assert r[i] == s[i - 1];
      }
    }
  }

  lemma {:induction false} InsertAscendingSorted(k: string, s: seq<string>)
    requires Ascending(s)
    ensures Ascending(InsertAscending(k, s))
  {
    if s == [] || DigitsValue(k) <= DigitsValue(s[0]) {
      forall x | x in multiset(s)
        ensures DigitsValue(k) <= DigitsValue(x)
      {
        var j :| 0 <= j < |s| && s[j] == x;
      }
      ConsAscending(k, s);
    } else {
      var rest := InsertAscending(k, s[1..]);
      assert Ascending(s[1..]);
      InsertAscendingSorted(k, s[1..]);
      InsertAscendingKeys(k, s[1..]);
      forall x | x in multiset(rest)
        ensures DigitsValue(s[0]) <= DigitsValue(x)
      {
        if x != k {
          assert x in s[1..];
        }
      }
      ConsAscending(s[0], rest);
    }
  }

  /** Insertion sort by numeric value. */
  function SortAscending(s: seq<string>): seq<string>
  {
    if s == [] then [] else InsertAscending(s[0], SortAscending(s[1..]))
  }

  lemma {:induction false} SortAscendingSorted(s: seq<string>)
    ensures Ascending(SortAscending(s))
    ensures multiset(SortAscending(s)) == multiset(s)
  {
    if s != [] {
      SortAscendingSorted(s[1..]);
      InsertAscendingSorted(s[0], SortAscending(s[1..]));
      InsertAscendingKeys(s[0], SortAscending(s[1..]));
      assert s == [s[0]] + s[1..];
    }
  }

  predicate IndicesFirstAscending(r: seq<string>)
  {
    forall i, j :: 0 <= i < j < |r| && IsArrayIndex(r[j]) ==>
      IsArrayIndex(r[i]) && DigitsValue(r[i]) <= DigitsValue(r[j])
  }

  lemma IndicesThenNames(ix: seq<string>, named: seq<string>)
    requires AllIndices(ix) && Ascending(ix)
    requires forall i :: 0 <= i < |named| ==> !IsArrayIndex(named[i])
    ensures IndicesFirstAscending(ix + named)
  {
    var r := ix + named;
    forall i, j | 0 <= i < j < |r| && IsArrayIndex(r[j])
      ensures IsArrayIndex(r[i]) && DigitsValue(r[i]) <= DigitsValue(r[j])
    {
    }
  }

  lemma SortedIndexKeys(keys: seq<string>)
    ensures AllIndices(SortAscending(IndexKeys(keys)))
    ensures Ascending(SortAscending(IndexKeys(keys)))
    ensures multiset(SortAscending(IndexKeys(keys))) == multiset(IndexKeys(keys))
  {
    var ix := SortAscending(IndexKeys(keys));
    SortAscendingSorted(IndexKeys(keys));
    IndexKeysAreIndices(keys);
    forall i | 0 <= i < |ix|
      ensures IsArrayIndex(ix[i])
    {
      assert ix[i] in multiset(IndexKeys(keys));
    }
  }

  /** `Object.keys` of an object whose keys were first assigned in the order `keys`. */
  function OwnKeys(keys: seq<string>): seq<string>
  {
    SortAscending(IndexKeys(keys)) + NamedKeys(keys)
  }

  /**
   * `Object.keys` lists the same keys, the array indices first in ascending numeric order,
   * the other keys after them in their original order.
   */
  lemma OwnKeysOrder(keys: seq<string>)
    ensures multiset(OwnKeys(keys)) == multiset(keys)
    ensures |OwnKeys(keys)| == |keys|
    ensures IndicesFirstAscending(OwnKeys(keys))
    ensures NamedKeys(OwnKeys(keys)) == NamedKeys(keys)
  {
    var ix := SortAscending(IndexKeys(keys));
    var named := NamedKeys(keys);
    SortedIndexKeys(keys);
    NamedKeysAreNames(keys);
    assert IndicesFirstAscending(ix + named) by {
      IndicesThenNames(ix, named);
    }
    assert multiset(ix + named) == multiset(keys) by {
      SplitKeys(keys);
    }
    assert |ix + named| == |multiset(ix + named)|;
    assert NamedKeys(ix + named) == named by {
      NamedKeysAppend(ix, named);
      NamedKeysOfIndices(ix);
      NamedKeysOfNames(named);
    }
  }

  /** Keys in the order of their first assignment: the insertion order of an object. */
  function FirstAssigned(keys: seq<string>): seq<string>
  {
    if keys == [] then []
    else
      var d := FirstAssigned(keys[..|keys| - 1]);
      var k := keys[|keys| - 1];
      if k in d then d else d + [k]
  }

  /** Re-assigning a key keeps its first position: every key once, nothing else. */
  lemma {:induction false} FirstAssignedKeys(keys: seq<string>)
    ensures Distinct(FirstAssigned(keys))
    ensures forall x :: x in FirstAssigned(keys) <==> x in keys
  {
    if keys != [] {
      var prefix := keys[..|keys| - 1];
      FirstAssignedKeys(prefix);
      assert keys == prefix + [keys[|keys| - 1]];
    }
  }

  lemma {:induction false} DistinctCount<T>(s: seq<T>, x: T)
    requires Distinct(s)
    ensures multiset(s)[x] <= 1
  {
    if s != [] {
      assert s == [s[0]] + s[1..];
      DistinctCount(s[1..], x);
      if s[0] == x {
        assert x !in s[1..];
      }
    }
  }

  /** Dropping the head of a duplicate-free sequence keeps it duplicate-free, and the head is not repeated. */
  lemma DistinctTail<T>(s: seq<T>)
    requires Distinct(s) && s != []
    ensures Distinct(s[1..]) && s[0] !in s[1..]
  {
    forall i, j | 0 <= i < j < |s[1..]|
      ensures s[1..][i] != s[1..][j]
    {
      assert s[1..][i] == s[i + 1] && s[1..][j] == s[j + 1];
    }
    assert forall j :: 0 <= j < |s| - 1 ==> s[1..][j] == s[j + 1];
  }

  /** A permutation of a sequence without repetitions has none either. */
  lemma PermutationKeepsDistinct<T>(a: seq<T>, b: seq<T>)
    requires multiset(a) == multiset(b) && Distinct(a)
    ensures Distinct(b)
  {
    forall i, j | 0 <= i < j < |b|
      ensures b[i] != b[j]
    {
      if b[i] == b[j] {
        assert b == b[..j] + b[j..];
        assert b[i] in b[..j];
        assert b[j] in b[j..];
        assert multiset(b)[b[i]] == multiset(b[..j])[b[i]] + multiset(b[j..])[b[i]];
        DistinctCount(a, b[i]);
      }
    }
  }

  /** Walking an object's keys visits every key exactly once. */
  lemma OwnKeysOfObject(keys: seq<string>)
    ensures Distinct(OwnKeys(FirstAssigned(keys)))
    ensures forall x :: x in OwnKeys(FirstAssigned(keys)) <==> x in keys
  {
    var d := FirstAssigned(keys);
    var r := OwnKeys(d);
    FirstAssignedKeys(keys);
    OwnKeysOrder(d);
    PermutationKeepsDistinct(d, r);
    forall x
      ensures x in r <==> x in keys
    {
      assert x in r <==> x in multiset(r);
      assert x in d <==> x in multiset(d);
    }
  }
}
