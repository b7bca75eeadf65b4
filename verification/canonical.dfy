/**
 The canonical bar record every source adapter produces and the export reads
 back, together with the small value types it is built from.

 The field list follows the `stocks` table: ticker, time (Unix seconds),
 high, low, avg, sale and a nullable JSON `meta` object. Prices are `real`;
 binary floating point is not modelled.
 */
module Canonical {

  datatype Option<+T> = None | Some(value: T)

  /** A JSON scalar as it can appear as a value of the `meta` object. */
  datatype Json =
    | JNull
    | JBool(b: bool)
    | JInt(i: int)
    | JFloat(x: real)
    | JStr(s: string)

  /**
   A key of a `meta` object: one constructor per key the ingestion paths
   write, and `Other` for any key a row from elsewhere may carry.
   */
  datatype Key =
    | Source | Volume | Open | Close | DayHigh | DayLow | PreviousClose
    | MarketCap | PeRatio | Timestamp | Transactions | Vwap
    | Other(name: string)

  /** One key/value pair of a `meta` object; the object keeps insertion order. */
  datatype Field = Field(key: Key, value: Json)

  type Meta = seq<Field>

  /** One row of the `stocks` table (its storage-assigned id left aside). */
  datatype Stock = Stock(
    ticker: string,
    time: int,
    high: real,
    low: real,
    avg: real,
    sale: real,
    meta: Option<Meta>)

  /** The value stored under `key`, looking at the first field that carries it. */
  function Lookup(m: Meta, key: Key): Option<Json>
  {
    if |m| == 0 then None
    else if m[0].key == key then Some(m[0].value)
    else Lookup(m[1..], key)
  }

  /** `Lookup` finds nothing exactly when no field has the key, and otherwise a field that has it. */
  lemma {:induction false} LookupSpec(m: Meta, key: Key)
    ensures Lookup(m, key).None? <==> forall i :: 0 <= i < |m| ==> m[i].key != key
    ensures Lookup(m, key).Some? ==> exists i :: 0 <= i < |m| && m[i] == Field(key, Lookup(m, key).value)
  {
    if |m| > 0 && m[0].key != key {
      LookupSpec(m[1..], key);
      if Lookup(m, key).Some? {
        var i :| 0 <= i < |m[1..]| && m[1..][i] == Field(key, Lookup(m, key).value);
        assert m[i + 1] == m[1..][i];
      }
    }
  }

  /** The keys of a meta object, in order. */
  function Keys(m: Meta): (ks: seq<Key>)
    ensures |ks| == |m|
    ensures forall i :: 0 <= i < |m| ==> ks[i] == m[i].key
  {
    seq(|m|, i requires 0 <= i < |m| => m[i].key)
  }

  /** The field at index i is the one `Lookup` finds when no earlier field has its key. */
  lemma {:induction false} LookupFirst(m: Meta, i: nat, key: Key)
    requires i < |m| && m[i].key == key
    requires forall j :: 0 <= j < i ==> m[j].key != key
    ensures Lookup(m, key) == Some(m[i].value)
  {
    if i > 0 {
      LookupFirst(m[1..], i - 1, key);
    }
  }

  /** Fields in front that do not carry the key do not change what `Lookup` finds. */
  lemma {:induction false} LookupAppend(a: Meta, b: Meta, key: Key)
    requires forall i :: 0 <= i < |a| ==> a[i].key != key
    ensures Lookup(a + b, key) == Lookup(b, key)
  {
    if |a| == 0 {
      assert a + b == b;
    } else {
      assert (a + b)[0] == a[0];
      assert (a + b)[1..] == a[1..] + b;
      LookupAppend(a[1..], b, key);
    }
  }
}
