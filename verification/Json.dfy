/**
 * PHP values as `json_decode($text, true)` produces them, and the few PHP
 * operations the client applies to them: truthiness (`if ($v)`), keyed
 * access (`$v['key']`, `isset`, `array_key_exists`) and string conversion.
 */
module Json {
  import opened Decimal

  datatype Option<T> = None | Some(value: T)

  /** One byte of a request or reply body; `strlen` counts these. */
  newtype byte = x: int | 0 <= x < 256

  /**
   * A PHP value: null, a boolean, an integer, a string, a list (JSON array)
   * or an associative array (JSON object, members in order).
   */
  datatype Json =
    | JNull
    | JBool(b: bool)
    | JInt(i: int)
    | JString(s: string)
    | JArray(elems: seq<Json>)
    | JObject(members: seq<(string, Json)>)

  /** PHP's conversion to boolean: null, false, 0, "", "0" and the empty array are false. */
  predicate Truthy(v: Json) {
    match v
    case JNull => false
    case JBool(b) => b
    case JInt(i) => i != 0
    case JString(s) => s != "" && s != "0"
    case JArray(es) => es != []
    case JObject(ms) => ms != []
  }

  /**
   * The value stored under `key` among `ms`. When a key repeats, the last
   * occurrence wins, as it does when json_decode or an array literal sees
   * a key twice.
   */
  function Find(ms: seq<(string, Json)>, key: string): Option<Json>
  {
    if ms == [] then None
    else
      var later := Find(ms[1..], key);
      if later.Some? then later
      else if ms[0].0 == key then Some(ms[0].1)
      else None
  }

  /** The key occurs at index `i` and at no later index. */
  ghost predicate LastOccurrence(ms: seq<(string, Json)>, key: string, i: int) {
    0 <= i < |ms| && ms[i].0 == key && forall j :: i < j < |ms| ==> ms[j].0 != key
  }

  /** Find answers with the value at the key's last occurrence, and fails only when the key is absent. */
  lemma {:induction false} FindIsLastOccurrence(ms: seq<(string, Json)>, key: string)
    ensures Find(ms, key).None? <==> forall i :: 0 <= i < |ms| ==> ms[i].0 != key
    ensures forall i :: LastOccurrence(ms, key, i) ==> Find(ms, key) == Some(ms[i].1)
  {
    if ms != [] {
      var tail := ms[1..];
      FindIsLastOccurrence(tail, key);
      forall i | 0 <= i < |ms| && Find(ms, key).None?
        ensures ms[i].0 != key
      {
        if i > 0 { assert ms[i] == tail[i - 1]; }
      }
      forall i | 1 <= i < |ms| && ms[i].0 == key
        ensures Find(ms, key).Some?
      {
        assert tail[i - 1] == ms[i];
      }
      forall i | LastOccurrence(ms, key, i)
        ensures Find(ms, key) == Some(ms[i].1)
      {
        if i == 0 {
          assert forall j :: 0 <= j < |tail| ==> tail[j] == ms[j + 1];
        } else {
          assert LastOccurrence(tail, key, i - 1);
        }
      }
    }
  }

  /** Adding a member at the end makes it the one Find sees for its key and hides nothing else. */
  lemma {:induction false} FindAppend(ms: seq<(string, Json)>, k: string, v: Json, key: string)
    ensures Find(ms + [(k, v)], key) == if k == key then Some(v) else Find(ms, key)
  {
    if ms == [] {
      assert [(k, v)][1..] == [];
    } else {
      assert (ms + [(k, v)])[1..] == ms[1..] + [(k, v)];
      FindAppend(ms[1..], k, v, key);
    }
  }

  /** `$v[key]` when it is set: a member of an associative array. Lists and scalars have no string keys. */
  function Member(v: Json, key: string): Option<Json>
  {
    match v
    case JObject(ms) => Find(ms, key)
    case _ => None
  }

  /** `$v[key]`, which PHP reads as null when the key is missing. */
  function MemberOrNull(v: Json, key: string): Json
  {
    match Member(v, key)
    case Some(x) => x
    case None => JNull
  }

  /** The keys of an associative array, in order. */
  function Keys(ms: seq<(string, Json)>): (ks: seq<string>)
    ensures |ks| == |ms| && forall i :: 0 <= i < |ms| ==> ks[i] == ms[i].0
  {
    if ms == [] then [] else [ms[0].0] + Keys(ms[1..])
  }

  /**
   * An associative array as a map from its keys to their values, as PHP
   * holds it: one entry per key, the last occurrence's value.
   */
  function ToMap(ms: seq<(string, Json)>): map<string, Json>
  {
    if ms == [] then map[] else map[ms[0].0 := ms[0].1] + ToMap(ms[1..])
  }

  /** The map holds exactly the keys Find can see, each with the value Find gives. */
  lemma {:induction false} ToMapAgreesWithFind(ms: seq<(string, Json)>, key: string)
    ensures key in ToMap(ms) <==> Find(ms, key).Some?
    ensures key in ToMap(ms) ==> Find(ms, key) == Some(ToMap(ms)[key])
  {
    if ms != [] {
      ToMapAgreesWithFind(ms[1..], key);
    }
  }

  /** PHP's string conversion (string interpolation and `.`); arrays become "Array". */
  function PhpString(v: Json): string
  {
    match v
    case JNull => ""
    case JBool(b) => if b then "1" else ""
    case JInt(i) => IntToDecimal(i)
    case JString(s) => s
    case JArray(_) => "Array"
    case JObject(_) => "Array"
  }
}
