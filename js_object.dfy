/** A plain JavaScript object (`{}`) used as a string-keyed dictionary.
    Besides a value per key, such an object remembers an order of its own
    keys, the one `Object.keys` and `Object.entries` report (ECMAScript,
    section 10.1.11.1 OrdinaryOwnPropertyKeys): first every key that is an
    array index, in ascending numeric order, then every other string key in
    the order it was first created. Overwriting an existing key keeps its
    place. */
module JsObject {
  import opened Wrappers

  /* ---------- Property keys ---------- */

  predicate IsDigit(c: char)
  {
    '0' <= c <= '9'
  }

  predicate AllDigits(s: string)
  {
    forall i :: 0 <= i < |s| ==> IsDigit(s[i])
  }

  /** The number a string of decimal digits denotes. */
  function DigitsValue(s: string): (n: nat)
    requires AllDigits(s)
  {
    if s == [] then 0
    else 10 * DigitsValue(s[..|s| - 1]) + (s[|s| - 1] as int - '0' as int)
  }

  /** An array index: the canonical decimal form of an integer in
      [0, 2^32 - 2] (no sign, no leading zero except "0" itself). */
  predicate IsArrayIndex(s: string)
  {
    && |s| > 0
    && AllDigits(s)
    && (s[0] != '0' || s == "0")
    && DigitsValue(s) < 0xFFFF_FFFF
  }

  function IndexValue(s: string): (n: nat)
    requires IsArrayIndex(s)
  {
    DigitsValue(s)
  }

  /** A key whose first character is not a decimal digit is listed in
      creation order. */
  lemma NotDigitNotIndex(s: string)
    requires |s| > 0 && !IsDigit(s[0])
    ensures !IsArrayIndex(s)
  {
  }

  /* ---------- Key lists ---------- */

  predicate NoDup(s: seq<string>)
  {
    forall i, j :: 0 <= i < j < |s| ==> s[i] != s[j]
  }

  /** The order OrdinaryOwnPropertyKeys keeps: every array index comes
      before every other key, and array indices ascend. */
  predicate Ordered(keys: seq<string>)
  {
    forall i, j :: 0 <= i < j < |keys| && IsArrayIndex(keys[j]) ==>
      IsArrayIndex(keys[i]) && IndexValue(keys[i]) <= IndexValue(keys[j])
  }

  /** The keys of a list that are not array indices, in list order. */
  function NonIndex(s: seq<string>): (r: seq<string>)
    ensures forall x :: x in r <==> x in s && !IsArrayIndex(x)
  {
    if s == [] then []
    else if IsArrayIndex(s[|s| - 1]) then NonIndex(s[..|s| - 1])
    else NonIndex(s[..|s| - 1]) + [s[|s| - 1]]
  }

  /** The first occurrence of each element, in order of first occurrence. */
  function Dedup(s: seq<string>): (r: seq<string>)
    ensures forall x :: x in r <==> x in s
  {
    if s == [] then []
    else if s[|s| - 1] in s[..|s| - 1] then Dedup(s[..|s| - 1])
    else Dedup(s[..|s| - 1]) + [s[|s| - 1]]
  }

  /** Where a new array-index key k goes: before the first key that is not
      an array index or is a greater one. */
  function InsertIndex(keys: seq<string>, k: string): (r: seq<string>)
    requires IsArrayIndex(k)
    ensures |r| == |keys| + 1
    ensures forall x :: x in r <==> x in keys || x == k
  {
    if keys == [] || !IsArrayIndex(keys[0]) || IndexValue(k) < IndexValue(keys[0]) then
      [k] + keys
    else
      [keys[0]] + InsertIndex(keys[1..], k)
  }

  /** Inserting an array index leaves the other keys as they were. */
  lemma {:induction false} InsertIndexNonIndex(keys: seq<string>, k: string)
    requires IsArrayIndex(k)
    ensures NonIndex(InsertIndex(keys, k)) == NonIndex(keys)
    decreases |keys|
  {
    if keys == [] || !IsArrayIndex(keys[0]) || IndexValue(k) < IndexValue(keys[0]) {
      NonIndexCons(k, keys);
    } else {
      InsertIndexNonIndex(keys[1..], k);
      NonIndexCons(keys[0], InsertIndex(keys[1..], k));
      NonIndexCons(keys[0], keys[1..]);
      assert keys == [keys[0]] + keys[1..];
    }
  }

  /** The key list after a key that was not there is created. */
  function AddKey(keys: seq<string>, k: string): (r: seq<string>)
    ensures |r| == |keys| + 1
    ensures forall x :: x in r <==> x in keys || x == k
    ensures !IsArrayIndex(k) ==> r == keys + [k]
    ensures IsArrayIndex(k) ==> NonIndex(r) == NonIndex(keys)
  {
    if IsArrayIndex(k) then
      InsertIndexNonIndex(keys, k);
      InsertIndex(keys, k)
    else
      keys + [k]
  }

  lemma {:induction false} NonIndexCons(x: string, s: seq<string>)
    ensures NonIndex([x] + s) == (if IsArrayIndex(x) then [] else [x]) + NonIndex(s)
    decreases |s|
  {
    var t := [x] + s;
    if s == [] {
      assert t[..0] == [];
    } else {
      var s' := s[..|s| - 1];
      var last := s[|s| - 1];
      assert t[..|t| - 1] == [x] + s';
      assert t[|t| - 1] == last;
      NonIndexCons(x, s');
      var head := if IsArrayIndex(x) then [] else [x];
      if IsArrayIndex(last) {
        calc {
          NonIndex(t);
          NonIndex([x] + s');
          head + NonIndex(s');
          head + NonIndex(s);
        }
      } else {
        calc {
          NonIndex(t);
          NonIndex([x] + s') + [last];
          head + NonIndex(s') + [last];
          head + NonIndex(s);
        }
      }
    }
  }

  lemma NoDupCons(x: string, s: seq<string>)
    ensures NoDup([x] + s) <==> x !in s && NoDup(s)
  {
    var t := [x] + s;
    if x !in s && NoDup(s) {
      forall i, j | 0 <= i < j < |t| ensures t[i] != t[j] {
        if i == 0 {
          assert t[j] == s[j - 1];
        } else {
          assert t[i] == s[i - 1] && t[j] == s[j - 1];
        }
      }
    }
    if NoDup(t) {
      forall j | 0 <= j < |s| ensures s[j] != x {
        assert t[0] == x && t[j + 1] == s[j];
        assert t[0] != t[j + 1];
      }
      forall i, j | 0 <= i < j < |s| ensures s[i] != s[j] {
        assert t[i + 1] == s[i] && t[j + 1] == s[j];
      }
    }
  }

  lemma {:induction false} InsertIndexNoDup(keys: seq<string>, k: string)
    requires IsArrayIndex(k) && k !in keys && NoDup(keys)
    ensures NoDup(InsertIndex(keys, k))
    decreases |keys|
  {
    if keys == [] || !IsArrayIndex(keys[0]) || IndexValue(k) < IndexValue(keys[0]) {
      NoDupCons(k, keys);
    } else {
      assert keys == [keys[0]] + keys[1..];
      NoDupCons(keys[0], keys[1..]);
      InsertIndexNoDup(keys[1..], k);
      NoDupCons(keys[0], InsertIndex(keys[1..], k));
    }
  }

  /** Putting x in front keeps the order when x is an array index no
      greater than any array index after it. */
  lemma ConsOrdered(x: string, s: seq<string>)
    requires Ordered(s)
    requires forall y :: y in s && IsArrayIndex(y) ==> IsArrayIndex(x) && IndexValue(x) <= IndexValue(y)
    ensures Ordered([x] + s)
  {
    var r := [x] + s;
    forall i, j | 0 <= i < j < |r| && IsArrayIndex(r[j])
      ensures IsArrayIndex(r[i]) && IndexValue(r[i]) <= IndexValue(r[j])
    {
      assert r[j] == s[j - 1];
      if i > 0 {
        assert r[i] == s[i - 1];
      }
    }
  }

  lemma OrderedTail(keys: seq<string>)
    requires Ordered(keys) && |keys| > 0
    ensures Ordered(keys[1..])
    ensures forall y :: y in keys[1..] && IsArrayIndex(y) ==>
      IsArrayIndex(keys[0]) && IndexValue(keys[0]) <= IndexValue(y)
  {
    var rest := keys[1..];
    forall i, j | 0 <= i < j < |rest| && IsArrayIndex(rest[j])
      ensures IsArrayIndex(rest[i]) && IndexValue(rest[i]) <= IndexValue(rest[j])
    {
      assert rest[i] == keys[i + 1] && rest[j] == keys[j + 1];
    }
    forall y | y in rest && IsArrayIndex(y)
      ensures IsArrayIndex(keys[0]) && IndexValue(keys[0]) <= IndexValue(y)
    {
      var m :| 0 <= m < |rest| && rest[m] == y;
      assert keys[m + 1] == y;
    }
  }

  lemma {:induction false} InsertIndexOrdered(keys: seq<string>, k: string)
    requires IsArrayIndex(k) && Ordered(keys)
    ensures Ordered(InsertIndex(keys, k))
    decreases |keys|
  {
    if keys == [] {
      ConsOrdered(k, keys);
    } else {
      OrderedTail(keys);
      assert keys == [keys[0]] + keys[1..];
      if !IsArrayIndex(keys[0]) || IndexValue(k) < IndexValue(keys[0]) {
        ConsOrdered(k, keys);
      } else {
        InsertIndexOrdered(keys[1..], k);
        ConsOrdered(keys[0], InsertIndex(keys[1..], k));
      }
    }
  }

  /* ---------- Objects ---------- */

  /** The own enumerable string-keyed properties of a plain object:
      `keys` in the order Object.keys lists them, `values` the value of each. */
  datatype Object<V> = Object(keys: seq<string>, values: map<string, V>)
  {
    /** What every plain object satisfies: each property listed once, the
        list and the properties agree, and the list is in the standard
        order. */
    ghost predicate Valid()
    {
      && NoDup(keys)
      && (forall k :: k in values <==> k in keys)
      && Ordered(keys)
    }
  }

  /** `{}` */
  function Empty<V>(): (o: Object<V>)
    ensures o.Valid() && o.keys == []
    ensures forall k :: k !in o.values
  {
    Object([], map[])
  }

  /** `o[k]`: the value of property k, or undefined. */
  function Get<V>(o: Object<V>, k: string): (r: Option<V>)
    ensures r.Some? <==> k in o.values
    ensures r.Some? ==> r.value == o.values[k]
  {
    if k in o.values then Some(o.values[k]) else None
  }

  /** `o[k] = v`, also the result of `{...o, [k]: v}`: an existing key keeps
      its place in the key list; a new one is added where the standard order
      puts it. */
  function Put<V>(o: Object<V>, k: string, v: V): (r: Object<V>)
    ensures Get(r, k) == Some(v)
    ensures forall k' :: k' != k ==> Get(r, k') == Get(o, k')
    ensures k in o.values ==> r.keys == o.keys
    ensures k !in o.values && !IsArrayIndex(k) ==> r.keys == o.keys + [k]
    ensures IsArrayIndex(k) ==> NonIndex(r.keys) == NonIndex(o.keys)
  {
    if k in o.values then
      Object(o.keys, o.values[k := v])
    else
      Object(AddKey(o.keys, k), o.values[k := v])
  }

  /** Assignment keeps an object well formed. */
  lemma PutValid<V>(o: Object<V>, k: string, v: V)
    requires o.Valid()
    ensures Put(o, k, v).Valid()
  {
    if k !in o.values {
      AddKeyValid(o.keys, k);
    }
  }

  lemma AddKeyValid(keys: seq<string>, k: string)
    ensures NoDup(keys) && k !in keys ==> NoDup(AddKey(keys, k))
    ensures Ordered(keys) ==> Ordered(AddKey(keys, k))
  {
    if IsArrayIndex(k) {
      if NoDup(keys) && k !in keys {
        InsertIndexNoDup(keys, k);
      }
      if Ordered(keys) {
        InsertIndexOrdered(keys, k);
      }
    } else {
      if NoDup(keys) && k !in keys {
        AppendNoDup(keys, k);
      }
      if Ordered(keys) {
        AppendOrdered(keys, k);
      }
    }
  }

  lemma AppendNoDup(keys: seq<string>, k: string)
    requires NoDup(keys) && k !in keys
    ensures NoDup(keys + [k])
  {
    var r := keys + [k];
    forall i, j | 0 <= i < j < |r| ensures r[i] != r[j] {
      assert r[i] == keys[i];
    }
  }

  lemma AppendOrdered(keys: seq<string>, k: string)
    requires Ordered(keys) && !IsArrayIndex(k)
    ensures Ordered(keys + [k])
  {
    var r := keys + [k];
    forall i, j | 0 <= i < j < |r| && IsArrayIndex(r[j])
      ensures IsArrayIndex(r[i]) && IndexValue(r[i]) <= IndexValue(r[j])
    {
      assert r[i] == keys[i] && r[j] == keys[j];
    }
  }

  /** Setting a property to the value it already has changes nothing, so
      storing the same value twice is the same as storing it once. */
  lemma PutIdempotent<V>(o: Object<V>, k: string, v: V)
    ensures Put(Put(o, k, v), k, v) == Put(o, k, v)
  {
  }

  /** A second assignment to the same key overwrites the first in place. */
  lemma PutOverwrites<V>(o: Object<V>, k: string, v1: V, v2: V)
    ensures Put(Put(o, k, v1), k, v2) == Put(o, k, v2)
  {
    if k !in o.values {
      assert Put(o, k, v1).values[k := v2] == o.values[k := v2];
    }
  }

  /** When no key is an array index, the key list is creation order:
      exactly the keys in the order their first assignment happened. */
  lemma {:induction false} NonIndexKeysAreAll(keys: seq<string>)
    requires forall x :: x in keys ==> !IsArrayIndex(x)
    ensures NonIndex(keys) == keys
  {
    if keys != [] {
      NonIndexKeysAreAll(keys[..|keys| - 1]);
      assert keys == keys[..|keys| - 1] + [keys[|keys| - 1]];
    }
  }
}
