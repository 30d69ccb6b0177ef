/**
 * PHP's array as the configuration sees it: an ordered table of entries with
 * distinct keys, holding the kinds of values a YAML document and the asset
 * post-processing put there.
 */
module PhpArrays {
  import opened Wrappers

  /** An array key; PHP keeps integer keys (list positions) and string keys apart. */
  datatype Key = Index(n: int) | Name(s: string)

  /** An absolute URI as the PSR-7 object of the current site carries it. */
  datatype Url = Url(scheme: string, authority: string, path: string, query: string, fragment: string)

  datatype Value =
    | Null
    | Bool(b: bool)
    | Int(i: int)
    | Str(s: string)
    | Uri(url: Url)           // an object; only the asset sanitiser creates these
    | Arr(entries: seq<Entry>)

  datatype Entry = Entry(key: Key, value: Value)

  /** PHP's conversion to bool, as `if ($x)`, `!empty($x)` and `array_filter` apply it. */
  predicate Truthy(v: Value) {
    match v
    case Null => false
    case Bool(b) => b
    case Int(i) => i != 0
    case Str(s) => s != "" && s != "0"
    case Uri(_) => true
    case Arr(es) => es != []
  }

  /** The keys of a table, in table order. */
  function Keys(es: seq<Entry>): (ks: seq<Key>)
    ensures |ks| == |es|
    ensures forall i :: 0 <= i < |es| ==> ks[i] == es[i].key
  {
    if es == [] then [] else [es[0].key] + Keys(es[1..])
  }

  /** Every PHP array has pairwise distinct keys. */
  predicate UniqueKeys(es: seq<Entry>) {
    forall i, j :: 0 <= i < j < |es| ==> es[i].key != es[j].key
  }

  /** `a` is `b` with some elements left out and the rest kept in their order. */
  predicate IsSubsequence<T(==)>(a: seq<T>, b: seq<T>)
    decreases |b|
  {
    if a == [] then true
    else if b == [] then false
    else (a[0] == b[0] && IsSubsequence(a[1..], b[1..])) || IsSubsequence(a, b[1..])
  }

  lemma {:induction false} SubsequenceMembers<T>(a: seq<T>, b: seq<T>)
    requires IsSubsequence(a, b)
    ensures forall x :: x in a ==> x in b
    decreases |b|
  {
    if a != [] {
      assert b != [];
      if a[0] == b[0] && IsSubsequence(a[1..], b[1..]) {
        SubsequenceMembers(a[1..], b[1..]);
        assert forall x :: x in a ==> x == a[0] || x in a[1..];
      } else {
        SubsequenceMembers(a, b[1..]);
      }
    }
  }

  /** `$es[$k]` without the null coalescing: the stored value, if the key is present. */
  function Get(es: seq<Entry>, k: Key): Option<Value> {
    if es == [] then None
    else if es[0].key == k then Some(es[0].value)
    else Get(es[1..], k)
  }

  /** A lookup succeeds exactly for the keys the table holds. */
  lemma {:induction false} GetKeys(es: seq<Entry>, k: Key)
    ensures Get(es, k).Some? <==> k in Keys(es)
  {
    if es != [] {
      KeysCons(es[0], es[1..]);
      assert es == [es[0]] + es[1..];
      if es[0].key != k {
        GetKeys(es[1..], k);
      }
    }
  }

  /** A lookup that succeeds finds one of the table's entries. */
  lemma {:induction false} GetMember(es: seq<Entry>, k: Key)
    requires Get(es, k).Some?
    ensures Entry(k, Get(es, k).value) in es
  {
    if es[0].key != k {
      GetMember(es[1..], k);
    }
  }

  lemma KeysCons(e: Entry, es: seq<Entry>)
    ensures Keys([e] + es) == [e.key] + Keys(es)
  {
  }

  lemma GetCons(e: Entry, es: seq<Entry>)
    ensures forall k :: Get([e] + es, k) == if e.key == k then Some(e.value) else Get(es, k)
  {
  }

  /** `$es[$k] = $v`: an existing key keeps its position, a new key goes last. */
  function Put(es: seq<Entry>, k: Key, v: Value): (r: seq<Entry>)
    ensures Get(r, k) == Some(v)
    ensures forall k' :: k' != k ==> Get(r, k') == Get(es, k')
  {
    if es == [] then [Entry(k, v)]
    else if es[0].key == k then
      GetCons(Entry(k, v), es[1..]);
      GetCons(es[0], es[1..]);
      [Entry(k, v)] + es[1..]
    else
      var rest := Put(es[1..], k, v);
      GetCons(es[0], rest);
      GetCons(es[0], es[1..]);
      [es[0]] + rest
  }

  /** Assignment to a present key keeps the key order; a new key is appended. */
  lemma {:induction false} PutKeys(es: seq<Entry>, k: Key, v: Value)
    ensures k in Keys(es) ==> Keys(Put(es, k, v)) == Keys(es)
    ensures k !in Keys(es) ==> Keys(Put(es, k, v)) == Keys(es) + [k]
  {
    if es != [] {
      KeysCons(es[0], es[1..]);
      if es[0].key == k {
        KeysCons(Entry(k, v), es[1..]);
      } else {
        PutKeys(es[1..], k, v);
        KeysCons(es[0], Put(es[1..], k, v));
      }
    }
  }

  /** Assignment never moves or removes a key: the old keys are a prefix of the new. */
  lemma PutKeysPrefix(es: seq<Entry>, k: Key, v: Value)
    ensures Keys(es) <= Keys(Put(es, k, v))
  {
  }

  /** Assignment keeps an array's keys distinct. */
  lemma PutUnique(es: seq<Entry>, k: Key, v: Value)
    ensures UniqueKeys(es) ==> UniqueKeys(Put(es, k, v))
  {
    if UniqueKeys(es) {
      var r := Put(es, k, v);
      var ks := Keys(r);
      PutKeys(es, k, v);
      assert forall i, j :: 0 <= i < j < |r| ==> ks[i] != ks[j] by {
        if k in Keys(es) {
          assert ks == Keys(es);
        } else {
          assert ks == Keys(es) + [k];
        }
      }
    }
  }

  /** `$v[$k]` as `isset`, `empty` and `??` read it: null unless `$v` is an array holding `$k`. */
  function At(v: Value, k: Key): Value {
    if v.Arr? then Get(v.entries, k).GetOr(Null) else Null
  }

  /** `$v ?? $default`. */
  function Coalesce(v: Value, default: Value): Value {
    if v.Null? then default else v
  }

  /** The entries of an array value; null becomes an empty array when written through. */
  function Table(v: Value): seq<Entry> {
    if v.Arr? then v.entries else []
  }

  /** Values PHP can index for writing: an array, or null, which becomes one. */
  predicate Nestable(v: Value) {
    v.Null? || v.Arr?
  }
}
