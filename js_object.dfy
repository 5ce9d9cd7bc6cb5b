/**
 * Plain JavaScript objects used as string-keyed dictionaries.
 *
 * An object is its own keys in insertion order together with the value of
 * each key.  Assigning to a key that is already present keeps its position;
 * assigning to a new key appends it.  A `for...in` loop, and JSON output,
 * visit the keys in the order of OrdinaryOwnPropertyKeys (section 10.1.11.1
 * of ECMA-262): first the keys that are array indices, in ascending numeric
 * order, then every other key in insertion order.
 */
module JsObjects {
  import opened Wrappers

  predicate Distinct(s: seq<string>) {
    forall i, j :: 0 <= i < j < |s| ==> s[i] != s[j]
  }

  predicate IsDigit(c: char) {
    '0' <= c <= '9'
  }

  predicate AllDigits(s: string) {
    forall i :: 0 <= i < |s| ==> IsDigit(s[i])
  }

  function DigitValue(c: char): nat {
    if IsDigit(c) then c as int - '0' as int else 0
  }

  /** The number a run of decimal digits denotes. */
  function DigitsValue(s: string): nat
    decreases |s|
  {
    if s == [] then 0 else DigitsValue(s[..|s| - 1]) * 10 + DigitValue(s[|s| - 1])
  }

  /** 2^32 - 1: array indices are the integers below this bound. */
  const ArrayIndexBound: nat := 0xFFFF_FFFF

  /**
   * An array index (section 6.1.7 of ECMA-262): the canonical decimal
   * spelling of an integer i with 0 <= i < 2^32 - 1.  Canonical means no
   * sign, no leading zero except for "0" itself.
   */
  predicate IsArrayIndex(s: string) {
    && |s| > 0
    && AllDigits(s)
    && (s[0] == '0' ==> |s| == 1)
    && DigitsValue(s) < ArrayIndexBound
  }

  /** The elements `x` of `s` with `IsArrayIndex(x) == index`, in order. */
  function Select(s: seq<string>, index: bool): seq<string> {
    if s == [] then []
    else (if IsArrayIndex(s[0]) == index then [s[0]] else []) + Select(s[1..], index)
  }

  predicate Ascending(s: seq<string>) {
    forall i, j :: 0 <= i < j < |s| ==> DigitsValue(s[i]) <= DigitsValue(s[j])
  }

  /** Inserts `k` into `s` before the first element with a numeric value at least `k`'s. */
  function InsertByIndex(k: string, s: seq<string>): seq<string> {
    if s == [] then [k]
    else if DigitsValue(k) <= DigitsValue(s[0]) then [k] + s
    else [s[0]] + InsertByIndex(k, s[1..])
  }

  lemma {:induction false} InsertByIndexPermutes(k: string, s: seq<string>)
    ensures multiset(InsertByIndex(k, s)) == multiset(s) + multiset{k}
  {
    if s != [] && DigitsValue(k) > DigitsValue(s[0]) {
      InsertByIndexPermutes(k, s[1..]);
      assert s == [s[0]] + s[1..];
    }
  }

  /** Sequences with the same multiset have the same members. */
  lemma SameMembers(a: seq<string>, b: seq<string>)
    requires multiset(a) == multiset(b)
    ensures forall x :: x in a <==> x in b
  {
    forall x ensures x in a <==> x in b {
      assert x in a <==> x in multiset(a);
      assert x in b <==> x in multiset(b);
    }
  }

  /** Putting in front an element no larger than any other keeps a sequence ascending. */
  lemma AscendingCons(x: string, t: seq<string>)
    requires Ascending(t)
    requires forall y :: y in t ==> DigitsValue(x) <= DigitsValue(y)
    ensures Ascending([x] + t)
  {
    var r := [x] + t;
    forall i, j | 0 <= i < j < |r| ensures DigitsValue(r[i]) <= DigitsValue(r[j]) {
      var b := t[j - 1];
      assert r[j] == b;
      if i == 0 {
        assert b in t;
      } else {
        var a := t[i - 1];
        assert r[i] == a;
        assert DigitsValue(a) <= DigitsValue(b);
      }
    }
  }

  /** Putting in front an element that does not occur keeps a sequence free of repeats. */
  lemma DistinctCons(x: string, t: seq<string>)
    requires Distinct(t) && x !in t
    ensures Distinct([x] + t)
  {
    var r := [x] + t;
    forall i, j | 0 <= i < j < |r| ensures r[i] != r[j] {
      if i == 0 {
        assert r[j] == t[j - 1];
      } else {
        assert r[i] == t[i - 1] && r[j] == t[j - 1];
      }
    }
  }

  lemma {:induction false} InsertByIndexAscending(k: string, s: seq<string>)
    requires Ascending(s)
    ensures Ascending(InsertByIndex(k, s))
  {
    if s == [] {
    } else if DigitsValue(k) <= DigitsValue(s[0]) {
      AscendingCons(k, s);
    } else {
      var tail, rest := s[1..], InsertByIndex(k, s[1..]);
      assert Ascending(tail);
      InsertByIndexAscending(k, tail);
      InsertByIndexPermutes(k, tail);
      SameMembers(rest, tail + [k]);
      forall y | y in rest ensures DigitsValue(s[0]) <= DigitsValue(y) {
        assert y in tail + [k];
        if y != k {
          var m :| 0 <= m < |tail| && tail[m] == y;
          assert s[m + 1] == y;
        }
      }
      AscendingCons(s[0], rest);
    }
  }

  lemma {:induction false} InsertByIndexDistinct(k: string, s: seq<string>)
    requires Distinct(s) && k !in s
    ensures Distinct(InsertByIndex(k, s))
  {
    if s == [] {
    } else if DigitsValue(k) <= DigitsValue(s[0]) {
      DistinctCons(k, s);
    } else {
      assert Distinct(s[1..]);
      InsertByIndexDistinct(k, s[1..]);
      InsertByIndexPermutes(k, s[1..]);
      SameMembers(InsertByIndex(k, s[1..]), s[1..] + [k]);
      DistinctCons(s[0], InsertByIndex(k, s[1..]));
    }
  }

  /** Sorts by numeric value (insertion sort). */
  function SortByIndex(s: seq<string>): seq<string> {
    if s == [] then [] else InsertByIndex(s[0], SortByIndex(s[1..]))
  }

  lemma {:induction false} SortByIndexPermutes(s: seq<string>)
    ensures multiset(SortByIndex(s)) == multiset(s)
  {
    if s != [] {
      SortByIndexPermutes(s[1..]);
      InsertByIndexPermutes(s[0], SortByIndex(s[1..]));
      assert s == [s[0]] + s[1..];
    }
  }

  lemma {:induction false} SortByIndexOrdered(s: seq<string>)
    ensures Ascending(SortByIndex(s))
    ensures Distinct(s) ==> Distinct(SortByIndex(s))
  {
    if s != [] {
      var rest := SortByIndex(s[1..]);
      SortByIndexOrdered(s[1..]);
      InsertByIndexAscending(s[0], rest);
      if Distinct(s) {
        assert Distinct(s[1..]);
        SortByIndexPermutes(s[1..]);
        SameMembers(rest, s[1..]);
        InsertByIndexDistinct(s[0], rest);
      }
    }
  }

  /** The order in which `for...in` visits an object whose keys were inserted in the order `keys`. */
  function EnumerationOrder(keys: seq<string>): seq<string> {
    SortByIndex(Select(keys, true)) + Select(keys, false)
  }

  lemma {:induction false} SelectMembers(s: seq<string>, index: bool)
    ensures forall x :: x in Select(s, index) <==> x in s && IsArrayIndex(x) == index
  {
    if s != [] {
      SelectMembers(s[1..], index);
      assert s == [s[0]] + s[1..];
    }
  }

  lemma {:induction false} SelectAppend(a: seq<string>, b: seq<string>, index: bool)
    ensures Select(a + b, index) == Select(a, index) + Select(b, index)
  {
    if a == [] {
      assert a + b == b;
    } else {
      var head := if IsArrayIndex(a[0]) == index then [a[0]] else [];
      assert (a + b)[0] == a[0];
      assert (a + b)[1..] == a[1..] + b;
      assert Select(a + b, index) == head + Select(a[1..] + b, index);
      assert Select(a, index) == head + Select(a[1..], index);
      SelectAppend(a[1..], b, index);
      assert head + (Select(a[1..], index) + Select(b, index)) == (head + Select(a[1..], index)) + Select(b, index);
    }
  }

  lemma {:induction false} SelectPartition(s: seq<string>)
    ensures multiset(Select(s, true)) + multiset(Select(s, false)) == multiset(s)
  {
    if s != [] {
      assert s == [s[0]] + s[1..];
      SelectPartition(s[1..]);
    }
  }

  lemma {:induction false} SelectDistinct(s: seq<string>, index: bool)
    requires Distinct(s)
    ensures Distinct(Select(s, index))
  {
    if s != [] {
      assert Distinct(s[1..]);
      SelectDistinct(s[1..], index);
      SelectMembers(s[1..], index);
      if IsArrayIndex(s[0]) == index {
        assert s[0] !in s[1..];
        DistinctCons(s[0], Select(s[1..], index));
      }
    }
  }

  /** Selecting from a sequence whose elements all have the selected kind keeps all of it. */
  lemma {:induction false} SelectUniform(s: seq<string>, index: bool)
    requires forall x :: x in s ==> IsArrayIndex(x) == index
    ensures Select(s, index) == s
    ensures Select(s, !index) == []
  {
    if s != [] {
      SelectUniform(s[1..], index);
    }
  }

  lemma DistinctAppend(a: seq<string>, b: seq<string>)
    requires Distinct(a) && Distinct(b)
    requires forall x :: x in a ==> x !in b
    ensures Distinct(a + b)
  {
    var r := a + b;
    forall i, j | 0 <= i < j < |r| ensures r[i] != r[j] {
      if j < |a| {
        assert r[i] == a[i] && r[j] == a[j];
      } else if i < |a| {
        assert r[i] in a && r[j] == b[j - |a|];
      } else {
        assert r[i] == b[i - |a|] && r[j] == b[j - |a|];
      }
    }
  }

  /** Array indices first, ascending, when the first part holds only array indices in ascending order and the second none. */
  lemma IndicesFirst(a: seq<string>, b: seq<string>)
    requires Ascending(a)
    requires forall x :: x in a ==> IsArrayIndex(x)
    requires forall x :: x in b ==> !IsArrayIndex(x)
    ensures var r := a + b;
      forall i, j :: 0 <= i < j < |r| && IsArrayIndex(r[j]) ==>
        IsArrayIndex(r[i]) && DigitsValue(r[i]) <= DigitsValue(r[j])
  {
    var r := a + b;
    forall i, j | 0 <= i < j < |r| && IsArrayIndex(r[j])
      ensures IsArrayIndex(r[i]) && DigitsValue(r[i]) <= DigitsValue(r[j])
    {
      assert forall k :: |a| <= k < |r| ==> r[k] == b[k - |a|];
      assert j < |a|;
      assert r[i] == a[i] && r[j] == a[j];
    }
  }

  /** The enumeration order lists every key exactly as often as the object does. */
  lemma EnumerationOrderPermutes(keys: seq<string>)
    ensures multiset(EnumerationOrder(keys)) == multiset(keys)
    ensures forall x :: x in EnumerationOrder(keys) <==> x in keys
    ensures Distinct(keys) ==> Distinct(EnumerationOrder(keys))
  {
    var a, b := SortByIndex(Select(keys, true)), Select(keys, false);
    SelectPartition(keys);
    SortByIndexPermutes(Select(keys, true));
    assert EnumerationOrder(keys) == a + b;
    assert multiset(a + b) == multiset(keys);
    SameMembers(a + b, keys);
    if Distinct(keys) {
      SelectDistinct(keys, true);
      SelectDistinct(keys, false);
      SortByIndexOrdered(Select(keys, true));
      SelectMembers(keys, true);
      SelectMembers(keys, false);
      SameMembers(a, Select(keys, true));
      DistinctAppend(a, b);
    }
  }

  /**
   * The enumeration order puts every array index before every other key,
   * the array indices in ascending numeric order, and keeps the other keys
   * in insertion order.
   */
  lemma EnumerationOrderSorts(keys: seq<string>)
    ensures var r := EnumerationOrder(keys);
      forall i, j :: 0 <= i < j < |r| && IsArrayIndex(r[j]) ==>
        IsArrayIndex(r[i]) && DigitsValue(r[i]) <= DigitsValue(r[j])
    ensures Select(EnumerationOrder(keys), false) == Select(keys, false)
  {
    var a, b := SortByIndex(Select(keys, true)), Select(keys, false);
    assert EnumerationOrder(keys) == a + b;
    SortByIndexOrdered(Select(keys, true));
    SortByIndexPermutes(Select(keys, true));
    SelectMembers(keys, true);
    SelectMembers(keys, false);
    SameMembers(a, Select(keys, true));
    IndicesFirst(a, b);
    SelectAppend(a, b, false);
    SelectUniform(a, true);
    SelectUniform(b, false);
  }

  datatype JsObject<V> = JsObject(keys: seq<string>, values: map<string, V>)
  {
    /** Every object: no key twice, and exactly the listed keys have values. */
    predicate Valid() {
      && Distinct(keys)
      && (forall k :: k in values ==> k in keys)
      && (forall k :: k in keys ==> k in values)
    }

    /** `obj[k]`: the value of `k`, or `undefined` when `k` is not a key. */
    function Get(k: string): Option<V> {
      if k in values then Some(values[k]) else None
    }

    /** `obj[k] = v`. */
    function Put(k: string, v: V): (r: JsObject<V>)
      requires Valid()
      ensures r.Valid()
      ensures r.Get(k) == Some(v)
      ensures forall k' :: k' != k ==> r.Get(k') == Get(k')
      ensures k in keys ==> r.keys == keys
      ensures k !in keys ==> r.keys == keys + [k]
    {
      if k in values then JsObject(keys, values[k := v]) else JsObject(keys + [k], values[k := v])
    }

    /** The keys in `for...in` order. */
    function OwnKeys(): seq<string> {
      EnumerationOrder(keys)
    }
  }

  function Empty<V>(): (r: JsObject<V>)
    ensures r.Valid()
    ensures forall k :: r.Get(k) == None
  {
    JsObject([], map[])
  }
}
