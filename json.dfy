/**
 * The JSON trees the writers build with Jackson's ObjectMapper, as values.
 * An object node keeps its fields in insertion order; a put or set on a key
 * that is already present replaces its value where it stands.
 */
module Json {
  import opened Wrappers

  datatype Json =
    | JNull
    | JStr(s: string)
    | JInt(i: int)
    /** A Double node; the double itself is not modelled beyond its real value. */
    | JNum(r: real)
    /** A BigDecimal node: unscaled * 10^-scale, printed with scale digits. */
    | JDecimal(unscaled: int, scale: nat)
    | JArr(items: seq<Json>)
    | JObj(fields: seq<(string, Json)>)

  /** The keys of an object node, in order. */
  function Keys(fields: seq<(string, Json)>): (ks: seq<string>)
    ensures |ks| == |fields|
    ensures forall i :: 0 <= i < |fields| ==> ks[i] == fields[i].0
  {
    if fields == [] then [] else [fields[0].0] + Keys(fields[1..])
  }

  /** No key occurs twice. */
  predicate Distinct(ks: seq<string>)
  {
    forall i, j :: 0 <= i < j < |ks| ==> ks[i] != ks[j]
  }

  /** ObjectNode.get: the value stored under key, if any. */
  function Get(fields: seq<(string, Json)>, key: string): Option<Json>
  {
    if fields == [] then None
    else if fields[0].0 == key then Some(fields[0].1)
    else Get(fields[1..], key)
  }

  /** A key is found exactly when it is one of the node's keys. */
  lemma {:induction false} GetFindsKeys(fields: seq<(string, Json)>, key: string)
    ensures Get(fields, key).Some? <==> key in Keys(fields)
  {
    if fields != [] {
      assert Keys(fields) == [fields[0].0] + Keys(fields[1..]);
      GetFindsKeys(fields[1..], key);
    }
  }

  /** In a node whose keys are distinct, each field is found under its key. */
  lemma {:induction false} GetAt(fields: seq<(string, Json)>, i: int)
    requires Distinct(Keys(fields)) && 0 <= i < |fields|
    ensures Get(fields, fields[i].0) == Some(fields[i].1)
  {
    if i > 0 {
      assert Keys(fields)[0] != Keys(fields)[i];
      assert Distinct(Keys(fields[1..])) by {
        forall a, b | 0 <= a < b < |fields| - 1 ensures Keys(fields[1..])[a] != Keys(fields[1..])[b] {
          assert Keys(fields)[a + 1] != Keys(fields)[b + 1];
        }
      }
      GetAt(fields[1..], i - 1);
    }
  }

  /** The field a key is looked up in, on a JSON value (None on a non-object). */
  function Field(j: Json, key: string): Option<Json>
  {
    if j.JObj? then Get(j.fields, key) else None
  }

  /**
   * ObjectNode.put / ObjectNode.set: replaces the value of an existing key in
   * its position, or appends a new field at the end.
   */
  function Put(fields: seq<(string, Json)>, key: string, value: Json): (r: seq<(string, Json)>)
    ensures Get(r, key) == Some(value)
    ensures Keys(r) == if key in Keys(fields) then Keys(fields) else Keys(fields) + [key]
  {
    if fields == [] then [(key, value)]
    else if fields[0].0 == key then [(key, value)] + fields[1..]
    else
      var tail := Put(fields[1..], key, value);
      assert Keys([fields[0]] + tail) == [fields[0].0] + Keys(tail);
      assert Keys(fields) == [fields[0].0] + Keys(fields[1..]);
      [fields[0]] + tail
  }

  /** Put leaves every other key's value alone. */
  lemma {:induction false} PutOther(fields: seq<(string, Json)>, key: string, value: Json, other: string)
    requires other != key
    ensures Get(Put(fields, key, value), other) == Get(fields, other)
  {
    if fields != [] && fields[0].0 != key {
      PutOther(fields[1..], key, value, other);
    }
  }

  /** Putting a key under the value it already has changes nothing. */
  lemma {:induction false} PutSameValue(fields: seq<(string, Json)>, key: string, value: Json)
    requires Get(fields, key) == Some(value)
    ensures Put(fields, key, value) == fields
  {
    if fields[0].0 != key {
      PutSameValue(fields[1..], key, value);
    }
  }

  /** Putting a key that is not there yet appends a field. */
  lemma {:induction false} PutNewKey(fields: seq<(string, Json)>, key: string, value: Json)
    requires key !in Keys(fields)
    ensures Put(fields, key, value) == fields + [(key, value)]
  {
    if fields != [] {
      assert Keys(fields) == [fields[0].0] + Keys(fields[1..]);
      assert fields[0].0 != key && key !in Keys(fields[1..]);
      PutNewKey(fields[1..], key, value);
      assert Put(fields, key, value) == [fields[0]] + (fields[1..] + [(key, value)]);
      assert [fields[0]] + (fields[1..] + [(key, value)]) == fields + [(key, value)];
    }
  }

  /** Put keeps the keys of a node distinct. */
  lemma PutKeepsDistinct(fields: seq<(string, Json)>, key: string, value: Json)
    requires Distinct(Keys(fields))
    ensures Distinct(Keys(Put(fields, key, value)))
  {
  }
}
