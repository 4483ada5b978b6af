/** The record of campaign fields returned by the extraction step: a decoded
    JSON object, i.e. string keys in insertion order, each bound to a JSON value. */
module Fields {
  import opened Wrappers

  /** Python types a decoded JSON value other than a string can have. */
  datatype Kind = Int | Float | Bool | NoneValue | List | Dict

  /** A field value: a string, or any other JSON value together with the text
      Python's `str()` gives for it (what an f-string inserts). */
  datatype Value = Str(s: string) | Other(kind: Kind, text: string)

  /** A decoded JSON object: `dict.items()` in insertion order. */
  type Record = seq<(string, Value)>

  /** Python's name for the type of a non-string value, as used in its messages. */
  function TypeName(k: Kind): string
  {
    match k
    case Int => "int"
    case Float => "float"
    case Bool => "bool"
    case NoneValue => "NoneType"
    case List => "list"
    case Dict => "dict"
  }

  /** Lists and dicts cannot be dictionary keys; every other value can. */
  predicate Hashable(v: Value)
  {
    !(v.Other? && v.kind in {List, Dict})
  }

  /** `f"{v}"`: the text an f-string inserts for a value. */
  function Render(v: Value): string
  {
    match v
    case Str(s) => s
    case Other(_, text) => text
  }

  /** A JSON object never repeats a key. */
  predicate DistinctKeys(rec: Record)
  {
    forall i, j :: 0 <= i < j < |rec| ==> rec[i].0 != rec[j].0
  }

  /** `rec.get(key)`: the value bound to `key`, if any. */
  function Lookup(rec: Record, key: string): (r: Option<Value>)
    ensures r.None? <==> forall i :: 0 <= i < |rec| ==> rec[i].0 != key
    ensures r.Some? ==> exists i :: 0 <= i < |rec| && rec[i] == (key, r.value)
  {
    if |rec| == 0 then None
    else if rec[0].0 == key then Some(rec[0].1)
    else Lookup(rec[1..], key)
  }

  /** `rec[key] = v` for a key the object already holds: the value changes in
      place, the key keeps its position, and no other key is affected. */
  function Set(rec: Record, key: string, v: Value): (r: Record)
    ensures |r| == |rec| && forall i :: 0 <= i < |rec| ==> r[i].0 == rec[i].0
    ensures Lookup(rec, key).Some? ==> Lookup(r, key) == Some(v)
    ensures forall k :: k != key ==> Lookup(r, k) == Lookup(rec, k)
    ensures Lookup(rec, key) == Some(v) ==> r == rec
    decreases |rec|
  {
    if |rec| == 0 then []
    else if rec[0].0 == key then [(key, v)] + rec[1..]
    else [rec[0]] + Set(rec[1..], key, v)
  }

  /** In a JSON object, looking a key up finds a value exactly when that
      key/value pair is one of the object's items. */
  lemma {:induction false} LookupIsMembership(rec: Record, key: string, v: Value)
    requires DistinctKeys(rec)
    ensures Lookup(rec, key) == Some(v) <==> (key, v) in rec
  {
    if |rec| > 0 {
      assert DistinctKeys(rec[1..]);
      LookupIsMembership(rec[1..], key, v);
      if rec[0].0 != key {
        assert (key, v) in rec <==> (key, v) in rec[1..];
      } else {
        forall i | 0 <= i < |rec[1..]|
          ensures rec[1..][i].0 != key
        {
          assert rec[i + 1].0 != rec[0].0;
        }
      }
    }
  }

  /** Two JSON objects holding the same items, in whatever order, answer
      every lookup the same way. */
  lemma LookupIgnoresOrder(a: Record, b: Record, key: string)
    requires DistinctKeys(a) && DistinctKeys(b)
    requires forall e :: e in a <==> e in b
    ensures Lookup(a, key) == Lookup(b, key)
  {
    match Lookup(a, key)
    case Some(v) =>
      LookupIsMembership(a, key, v);
      LookupIsMembership(b, key, v);
    case None =>
      match Lookup(b, key)
      case Some(w) =>
        LookupIsMembership(a, key, w);
        LookupIsMembership(b, key, w);
      case None =>
  }

  /** Why processing of one line stopped. */
  datatype Failure =
    | ExtractionFailed(message: string)   // the extraction step raised; its message as given
    | MissingKey(key: string)             // `parsed[key]` raised KeyError
    | NotAString(index: nat, kind: Kind)  // `"-".join` met a non-string item

  /** Decimal digits of a natural number, as `str(n)` prints them. */
  function NatToString(n: nat): (r: string)
    ensures |r| >= 1
    ensures forall i :: 0 <= i < |r| ==> '0' <= r[i] <= '9'
    decreases n
  {
    if n < 10 then [('0' as int + n) as char]
    else NatToString(n / 10) + NatToString(n % 10)
  }

  /** `str(e)` for the exception behind a failure. */
  function Message(f: Failure): string
  {
    match f
    case ExtractionFailed(m) => m
    case MissingKey(k) => "'" + k + "'"
    case NotAString(i, k) => "sequence item " + NatToString(i) + ": expected str instance, " + TypeName(k) + " found"
  }
}
