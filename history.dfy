/**
 * The bounded per-key history store (`DataBuffer`): a map from signal key to
 * a FIFO of samples with one fixed capacity, where appending to a full FIFO
 * evicts its oldest sample.
 */
module History {
  import opened DataModel

  /** The capacity the dashboard builds its store with. */
  const DefaultMaxLen: nat := 500

  /**
   * Appending to a deque of capacity `cap`: the sample goes to the right
   * end and, when that overflows the capacity, the leftmost one is dropped.
   */
  function Push(h: seq<Sample>, x: Sample, cap: nat): (r: seq<Sample>)
    requires |h| <= cap
    ensures |r| <= cap
    ensures cap > 0 ==> |r| > 0 && r[|r| - 1] == x
  {
    var grown := h + [x];
    if |grown| > cap then grown[1..] else grown
  }

  /** The last `cap` elements of `s`, in order (all of `s` when it is shorter). */
  function LastN(s: seq<Sample>, cap: nat): seq<Sample>
  {
    if |s| <= cap then s else s[|s| - cap..]
  }

  /** Pushing onto the last `cap` samples keeps the last `cap` samples of the longer sequence. */
  lemma PushKeepsLast(s: seq<Sample>, x: Sample, cap: nat)
    ensures |LastN(s, cap)| <= cap
    ensures Push(LastN(s, cap), x, cap) == LastN(s + [x], cap)
  {
    if |s| > cap {
      assert (s[|s| - cap..] + [x])[1..] == (s + [x])[|s| + 1 - cap..];
    }
  }

  /** The history of a key to which the samples `xs` were appended, in order, from empty. */
  function Replay(xs: seq<Sample>, cap: nat): (h: seq<Sample>)
    ensures |h| <= cap
  {
    if xs == [] then [] else Push(Replay(xs[..|xs| - 1], cap), xs[|xs| - 1], cap)
  }

  /** A key's history is always the last `cap` samples appended to it, in insertion order. */
  lemma {:induction false} ReplayKeepsLast(xs: seq<Sample>, cap: nat)
    ensures Replay(xs, cap) == LastN(xs, cap)
  {
    if xs != [] {
      var init := xs[..|xs| - 1];
      ReplayKeepsLast(init, cap);
      PushKeepsLast(init, xs[|xs| - 1], cap);
      assert init + [xs[|xs| - 1]] == xs;
    }
  }

  /** After `cap + k` appends to one key, its history is exactly the last `cap` of them. */
  lemma ReplayOverflow(xs: seq<Sample>, cap: nat, k: nat)
    requires |xs| == cap + k
    ensures Replay(xs, cap) == xs[k..]
  {
    ReplayKeepsLast(xs, cap);
  }

  /** With capacity 3, appending samples at t = 1, 2, 3, 4 leaves those at t = 2, 3, 4. */
  lemma CapacityThreeKeepsLastThree()
    ensures Replay([Sample(1.0, Int(10)), Sample(2.0, Int(20)), Sample(3.0, Int(30)), Sample(4.0, Int(40))], 3)
         == [Sample(2.0, Int(20)), Sample(3.0, Int(30)), Sample(4.0, Int(40))]
  {
    var xs := [Sample(1.0, Int(10)), Sample(2.0, Int(20)), Sample(3.0, Int(30)), Sample(4.0, Int(40))];
    ReplayOverflow(xs, 3, 1);
  }

  /** Every history in `store` is within the capacity. */
  predicate Bounded(store: map<string, seq<Sample>>, cap: nat)
  {
    forall k :: k in store ==> |store[k]| <= cap
  }

  /** A key's history; a key that was never appended to has the empty history. */
  function HistoryOf(store: map<string, seq<Sample>>, key: string): (h: seq<Sample>)
    ensures key !in store ==> h == []
  {
    if key in store then store[key] else []
  }

  /**
   * `append(key, timestamp, value)` on the store's map: the key is created
   * on first use, its history is pushed onto, every other key is unchanged.
   */
  function AppendTo(store: map<string, seq<Sample>>, cap: nat, key: string, x: Sample): (r: map<string, seq<Sample>>)
    requires Bounded(store, cap)
    ensures Bounded(r, cap)
    ensures r.Keys == store.Keys + {key}
    ensures HistoryOf(r, key) == Push(HistoryOf(store, key), x, cap)
    ensures forall k :: k != key ==> HistoryOf(r, k) == HistoryOf(store, k)
  {
    store[key := Push(HistoryOf(store, key), x, cap)]
  }

  class DataBuffer {
    const maxlen: nat
    var data: map<string, seq<Sample>>

    ghost predicate Valid()
      reads this
    {
      Bounded(data, maxlen)
    }

    constructor (maxlen: nat)
      ensures Valid()
      ensures this.maxlen == maxlen && data == map[]
    {
      this.maxlen := maxlen;
      data := map[];
    }

    /** Appends `(timestamp, value)` to the history of `key`. */
    method Append(key: string, timestamp: real, value: Value)
      requires Valid()
      modifies this
      ensures Valid()
      ensures data == AppendTo(old(data), maxlen, key, Sample(timestamp, value))
    {
      data := data[key := Push(HistoryOf(data, key), Sample(timestamp, value), maxlen)];
    }

    /**
     * One entry per distinct requested key holding that key's history; a
     * key never appended to gets the empty history and is not added to the
     * store. Sequences are values, so the result is a copy.
     */
    function Snapshot(keys: seq<string>): (r: map<string, seq<Sample>>)
      reads this
      ensures r.Keys == set k | k in keys
      ensures forall k :: k in r ==> r[k] == HistoryOf(data, k)
      ensures Valid() ==> forall k :: k in r ==> |r[k]| <= maxlen
    {
      map k | k in keys :: HistoryOf(data, k)
    }
  }

  /**
   * Capacity 3; "A.x" receives t = 1..4; a query for "A.x" and the
   * never-written "B.y" sees the last three samples of "A.x" and nothing for "B.y".
   */
  /** Appending to a store holding at most the key itself yields that key's pushed history alone. */
  lemma AppendToSingle(store: map<string, seq<Sample>>, cap: nat, key: string, x: Sample)
    requires store == map[] || (store.Keys == {key} && |store[key]| <= cap)
    ensures Bounded(store, cap)
    ensures AppendTo(store, cap, key, x) == map[key := Push(HistoryOf(store, key), x, cap)]
  {
    if store != map[] {
      assert store == map[key := store[key]];
    }
  }

  /** Four samples appended under one key with room for three leave the last three. */
  lemma FourIntoThree(key: string, s1: Sample, s2: Sample, s3: Sample, s4: Sample)
    ensures AppendTo(AppendTo(AppendTo(AppendTo(map[], 3, key, s1), 3, key, s2), 3, key, s3), 3, key, s4)
         == map[key := [s2, s3, s4]]
  {
    AppendToSingle(map[], 3, key, s1);
    var m1 := AppendTo(map[], 3, key, s1);
    assert m1 == map[key := [s1]] by { assert [] + [s1] == [s1]; }
    AppendToSingle(m1, 3, key, s2);
    var m2 := AppendTo(m1, 3, key, s2);
    assert m2 == map[key := [s1, s2]] by { assert [s1] + [s2] == [s1, s2]; }
    AppendToSingle(m2, 3, key, s3);
    var m3 := AppendTo(m2, 3, key, s3);
    assert m3 == map[key := [s1, s2, s3]] by { assert [s1, s2] + [s3] == [s1, s2, s3]; }
    AppendToSingle(m3, 3, key, s4);
    assert ([s1, s2, s3] + [s4])[1..] == [s2, s3, s4];
  }

  /** A snapshot of two keys is the map of their two histories. */
  lemma SnapshotOfTwo(r: map<string, seq<Sample>>, store: map<string, seq<Sample>>, a: string, b: string)
    requires r.Keys == set k | k in [a, b]
    requires forall k :: k in r ==> r[k] == HistoryOf(store, k)
    ensures r == map[a := HistoryOf(store, a), b := HistoryOf(store, b)]
  {
    assert r.Keys == {a, b};
  }

  method CapacityThreeScenario() returns (series: map<string, seq<Sample>>)
    ensures series == map["A.x" := [Sample(2.0, Int(20)), Sample(3.0, Int(30)), Sample(4.0, Int(40))],
                          "B.y" := []]
  {
    var buffer := new DataBuffer(3);
    buffer.Append("A.x", 1.0, Int(10));
    buffer.Append("A.x", 2.0, Int(20));
    buffer.Append("A.x", 3.0, Int(30));
    buffer.Append("A.x", 4.0, Int(40));
    FourIntoThree("A.x", Sample(1.0, Int(10)), Sample(2.0, Int(20)), Sample(3.0, Int(30)), Sample(4.0, Int(40)));
    series := buffer.Snapshot(["A.x", "B.y"]);
    SnapshotOfTwo(series, buffer.data, "A.x", "B.y");
    assert "B.y" !in buffer.data by { assert "B.y"[0] != "A.x"[0]; }
  }
}
