/** JSON values as the parser receives them and the exporter builds them.
    An object is its entries in insertion order; a JavaScript object never holds
    the same key twice, which `WellFormed` states. */
module Json {
  import opened Nodes

  datatype Entry = Entry(key: string, val: Value)

  datatype Value =
    | JArray(items: seq<Value>)
    | JObject(entries: seq<Entry>)
    | JPrim(p: Primitive)

  /** The keys of an object, in order. */
  function Keys(es: seq<Entry>): (ks: seq<string>)
    ensures |ks| == |es|
    ensures forall i :: 0 <= i < |es| ==> ks[i] == es[i].key
  {
    if es == [] then [] else [es[0].key] + Keys(es[1..])
  }

  /** The value stored under key `k`, if any. */
  function Lookup(es: seq<Entry>, k: string): (r: Option<Value>)
    ensures r.None? <==> k !in Keys(es)
  {
    if es == [] then None
    else if es[0].key == k then Some(es[0].val)
    else Lookup(es[1..], k)
  }

  /** `{ ...es, [k]: v }`: a key already present keeps its position and takes the new
      value; a new key is appended. */
  function Put(es: seq<Entry>, k: string, v: Value): (r: seq<Entry>)
    ensures k !in Keys(es) ==> r == es + [Entry(k, v)]
    ensures k in Keys(es) ==> |r| == |es| && Keys(r) == Keys(es)
  {
    if es == [] then [Entry(k, v)]
    else if es[0].key == k then [Entry(k, v)] + es[1..]
    else [es[0]] + Put(es[1..], k, v)
  }

  /** After `Put(es, k, v)`, key `k` holds `v` and every other key holds what it held before. */
  lemma {:induction false} PutLookup(es: seq<Entry>, k: string, v: Value, k': string)
    ensures Lookup(Put(es, k, v), k') == if k' == k then Some(v) else Lookup(es, k')
  {
    if es != [] && es[0].key != k {
      PutLookup(es[1..], k, v, k');
    }
  }

  /** `Put` never introduces a duplicate key. */
  lemma PutKeepsKeysDistinct(es: seq<Entry>, k: string, v: Value)
    requires Distinct(Keys(es))
    ensures Distinct(Keys(Put(es, k, v)))
  {
  }

  /** Every object, at every depth, has pairwise distinct keys. */
  predicate WellFormed(v: Value)
    decreases v
  {
    match v
    case JArray(items) => WellFormedItems(items)
    case JObject(es) => Distinct(Keys(es)) && WellFormedEntries(es)
    case JPrim(_) => true
  }

  predicate WellFormedItems(items: seq<Value>)
    decreases items
  {
    items == [] || (WellFormed(items[0]) && WellFormedItems(items[1..]))
  }

  predicate WellFormedEntries(es: seq<Entry>)
    decreases es
  {
    es == [] || (WellFormed(es[0].val) && WellFormedEntries(es[1..]))
  }

  /** The number of JSON values in `v`, counting `v` itself. */
  function Count(v: Value): nat
    decreases v
  {
    match v
    case JArray(items) => 1 + CountItems(items)
    case JObject(es) => 1 + CountEntries(es)
    case JPrim(_) => 1
  }

  function CountItems(items: seq<Value>): nat
    decreases items
  {
    if items == [] then 0 else Count(items[0]) + CountItems(items[1..])
  }

  function CountEntries(es: seq<Entry>): nat
    decreases es
  {
    if es == [] then 0 else Count(es[0].val) + CountEntries(es[1..])
  }
}
