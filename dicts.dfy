/**
 * A Python `dict[str, Value]` as an association list in insertion order:
 * assigning to a present key replaces its value in place, assigning to a
 * new key appends it.
 */
module Dicts {
  import opened Wrappers
  import opened DataModel

  type Dict = seq<(string, Value)>

  function Keys(d: Dict): set<string>
  {
    if d == [] then {} else {d[0].0} + Keys(d[1..])
  }

  predicate DistinctKeys(d: Dict)
  {
    forall i, j :: 0 <= i < j < |d| ==> d[i].0 != d[j].0
  }

  function Get(d: Dict, k: string): Option<Value>
  {
    if d == [] then None else if d[0].0 == k then Some(d[0].1) else Get(d[1..], k)
  }

  lemma {:induction false} KeysMember(d: Dict, i: nat)
    requires i < |d|
    ensures d[i].0 in Keys(d)
  {
    if i > 0 {
      KeysMember(d[1..], i - 1);
    }
  }

  /** A key of a dict is the key of one of its entries. */
  lemma {:induction false} KeysIndex(d: Dict, k: string)
    requires k in Keys(d)
    ensures exists j :: 0 <= j < |d| && d[j].0 == k
  {
    if d[0].0 != k {
      KeysIndex(d[1..], k);
      var j :| 0 <= j < |d[1..]| && d[1..][j].0 == k;
      assert d[j + 1].0 == k;
    }
  }

  /** `d[k] = v`. */
  function Put(d: Dict, k: string, v: Value): Dict
  {
    if d == [] then [(k, v)]
    else if d[0].0 == k then [(k, v)] + d[1..]
    else [d[0]] + Put(d[1..], k, v)
  }

  /** Assigning adds the key to the dict's keys and maps it to the value. */
  lemma {:induction false} PutKeys(d: Dict, k: string, v: Value)
    ensures Keys(Put(d, k, v)) == Keys(d) + {k}
    ensures Get(Put(d, k, v), k) == Some(v)
  {
    if d != [] && d[0].0 != k {
      PutKeys(d[1..], k, v);
    }
  }

  /** Assigning to one key leaves the value of every other key as it was. */
  lemma {:induction false} PutOther(d: Dict, k: string, v: Value, k': string)
    requires k' != k
    ensures Get(Put(d, k, v), k') == Get(d, k')
  {
    if d != [] && d[0].0 != k {
      PutOther(d[1..], k, v, k');
    }
  }

  /** Assigning never makes a key appear twice. */
  lemma {:induction false} PutDistinct(d: Dict, k: string, v: Value)
    requires DistinctKeys(d)
    ensures DistinctKeys(Put(d, k, v))
  {
    if d != [] && d[0].0 != k {
      var r := Put(d, k, v);
      PutDistinct(d[1..], k, v);
      PutKeys(d[1..], k, v);
      forall j | 1 <= j < |r| ensures r[j].0 != d[0].0 {
        KeysMember(r[1..], j - 1);
        if d[0].0 in Keys(d[1..]) {
          KeysIndex(d[1..], d[0].0);
        }
      }
    }
  }

  /** A new key goes at the end, after the keys already present. */
  lemma {:induction false} PutNew(d: Dict, k: string, v: Value)
    requires k !in Keys(d)
    ensures Put(d, k, v) == d + [(k, v)]
  {
    if d != [] {
      PutNew(d[1..], k, v);
      assert [d[0]] + (d[1..] + [(k, v)]) == d + [(k, v)];
    }
  }

  /** Assigning to a present key replaces its value where it stands, so the order is kept. */
  lemma {:induction false} PutInPlace(d: Dict, k: string, v: Value)
    requires k in Keys(d) && DistinctKeys(d)
    ensures |Put(d, k, v)| == |d|
    ensures forall i :: 0 <= i < |d| ==> Put(d, k, v)[i] == (if d[i].0 == k then (k, v) else d[i])
  {
    if d[0].0 == k {
      forall i | 0 < i < |d| ensures d[i].0 != k { }
    } else {
      PutInPlace(d[1..], k, v);
    }
  }
}
