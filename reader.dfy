/**
 * One iteration of a device's polling loop (`PLCReader.run`): read the
 * tags, then append every returned value under `"<device>.<tag>"`, all
 * stamped with the time the cycle started.
 */
module Reader {
  import opened DataModel
  import opened Dicts
  import opened History
  import opened Link
  import opened Manager

  /** The store after appending each entry of `values`, in dict order, at time `t`. */
  function AppendCycle(store: map<string, seq<Sample>>, cap: nat, device: string, values: Dict, t: real)
    : (r: map<string, seq<Sample>>)
    requires Bounded(store, cap)
    ensures Bounded(r, cap)
    ensures r.Keys == store.Keys + set n | n in Keys(values) :: SignalKey(device, n)
    decreases |values|
  {
    if values == [] then store
    else
      var next := AppendTo(store, cap, SignalKey(device, values[0].0), Sample(t, values[0].1));
      var r := AppendCycle(next, cap, device, values[1..], t);
      assert Keys(values) == {values[0].0} + Keys(values[1..]);
      r
  }

  /** Keys other than those of the returned values are untouched by a cycle. */
  lemma {:induction false} AppendCycleMiss(store: map<string, seq<Sample>>, cap: nat, device: string,
                                           values: Dict, t: real, key: string)
    requires Bounded(store, cap)
    requires forall n :: n in Keys(values) ==> key != SignalKey(device, n)
    ensures HistoryOf(AppendCycle(store, cap, device, values, t), key) == HistoryOf(store, key)
    decreases |values|
  {
    if values != [] {
      var next := AppendTo(store, cap, SignalKey(device, values[0].0), Sample(t, values[0].1));
      assert values[0].0 in Keys(values);
      AppendCycleMiss(next, cap, device, values[1..], t, key);
    }
  }

  /**
   * Each returned `(name, value)` is appended exactly once, under
   * `"<device>.<name>"`, with the cycle's timestamp `t`.
   */
  lemma {:induction false} AppendCycleHit(store: map<string, seq<Sample>>, cap: nat, device: string,
                                          values: Dict, t: real, i: nat)
    requires Bounded(store, cap)
    requires DistinctKeys(values)
    requires i < |values|
    ensures HistoryOf(AppendCycle(store, cap, device, values, t), SignalKey(device, values[i].0))
         == Push(HistoryOf(store, SignalKey(device, values[i].0)), Sample(t, values[i].1), cap)
    decreases |values|
  {
    var key := SignalKey(device, values[i].0);
    var next := AppendTo(store, cap, SignalKey(device, values[0].0), Sample(t, values[0].1));
    if i == 0 {
      forall n | n in Keys(values[1..]) ensures key != SignalKey(device, n) {
        KeysIndex(values[1..], n);
      }
      AppendCycleMiss(next, cap, device, values[1..], t, key);
    } else {
      assert values[0].0 != values[i].0;
      assert key != SignalKey(device, values[0].0);
      AppendCycleHit(next, cap, device, values[1..], t, i - 1);
    }
  }

  /**
   * One cycle: `read_tags()` on the manager, then one append per returned
   * value at `startTime`. The stop flag and the sleep lie outside a cycle.
   */
  method RunCycle(manager: PLCManager, buffer: DataBuffer, startTime: real, env: ClientEnv, dec: Decoders)
    requires buffer.Valid()
    modifies manager, buffer
    ensures buffer.Valid()
    ensures manager.State() == ReadTagsSpec(old(manager.State()), manager.tags, env, dec).0
    ensures buffer.data == AppendCycle(old(buffer.data), buffer.maxlen, manager.name,
                                       ReadTagsSpec(old(manager.State()), manager.tags, env, dec).1, startTime)
  {
    var values := manager.ReadTags(env, dec);
    ghost var state := manager.State();
    var i := 0;
    while i < |values|
      invariant 0 <= i <= |values|
      invariant buffer.Valid()
      invariant manager.State() == state
      invariant AppendCycle(buffer.data, buffer.maxlen, manager.name, values[i..], startTime)
             == AppendCycle(old(buffer.data), buffer.maxlen, manager.name, values, startTime)
    {
      var (name, value) := values[i];
      assert values[i..][1..] == values[i + 1..];
      buffer.Append(SignalKey(manager.name, name), startTime, value);
      i := i + 1;
    }
  }
}
