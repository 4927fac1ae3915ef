/**
 * The read-only handlers: the signal list of the index page (`index`), the
 * series and status string of `/data`, and the connection map of `/health`.
 */
module Query {
  import opened Wrappers
  import opened DataModel
  import opened Text
  import opened History
  import opened Link
  import opened Manager

  /** The pieces of `parts` that are not empty, in order. */
  function NonEmpty(parts: seq<string>): (r: seq<string>)
    ensures forall p :: p in r <==> p in parts && p != ""
  {
    if parts == [] then []
    else (if parts[0] == "" then [] else [parts[0]]) + NonEmpty(parts[1..])
  }

  lemma {:induction false} NonEmptyKeepsAll(parts: seq<string>)
    requires forall p :: p in parts ==> p != ""
    ensures NonEmpty(parts) == parts
  {
    if parts != [] {
      assert parts[0] in parts;
      assert forall p :: p in parts[1..] ==> p in parts;
      NonEmptyKeepsAll(parts[1..]);
      assert [parts[0]] + parts[1..] == parts;
    }
  }

  /** The `signals` query parameter: split on `","`, empty pieces dropped. */
  function SelectedKeys(param: string): (keys: seq<string>)
    ensures forall k :: k in keys ==> k != "" && ',' !in k
    ensures forall k :: k in keys <==> k in Split(param, ',') && k != ""
  {
    NonEmpty(Split(param, ','))
  }

  /** The page's comma-joined list of selected keys parses back to that list. */
  lemma SelectedKeysOfJoin(keys: seq<string>)
    requires forall k :: k in keys ==> k != "" && ',' !in k
    ensures SelectedKeys(Join(keys, ",")) == keys
  {
    if keys == [] {
      assert Split("", ',') == [""];
    } else {
      SplitJoin(keys, ',');
      NonEmptyKeepsAll(keys);
    }
  }

  /** The `series` of `/data`: the store's snapshot of the selected keys. */
  function Series(buffer: DataBuffer, param: string): (series: map<string, seq<Sample>>)
    reads buffer
    ensures series.Keys == set k | k in Split(param, ',') && k != ""
    ensures forall k :: k in series ==> series[k] == HistoryOf(buffer.data, k)
  {
    buffer.Snapshot(SelectedKeys(param))
  }

  /** One device's part of the status string; an empty error text reads as no error. */
  function StatusPart(name: string, s: LinkState): string
  {
    if s.connected then name + ": verbunden"
    else if s.lastError.Some? && s.lastError.value != "" then name + ": " + s.lastError.value
    else name + ": nicht verbunden"
  }

  /** The status string: one part per device, in configuration order, joined by `" | "`. */
  function StatusLine(devices: seq<(string, LinkState)>): (line: string)
    ensures devices == [] ==> line == ""
    ensures |devices| == 1 ==> line == StatusPart(devices[0].0, devices[0].1)
  {
    Join(StatusParts(devices), " | ")
  }

  function StatusParts(devices: seq<(string, LinkState)>): (parts: seq<string>)
    ensures |parts| == |devices|
    ensures forall i :: 0 <= i < |devices| ==> parts[i] == StatusPart(devices[i].0, devices[i].1)
  {
    if devices == [] then [] else [StatusPart(devices[0].0, devices[0].1)] + StatusParts(devices[1..])
  }

  /** Adding a device to the configuration appends its part after a `" | "`. */
  lemma StatusLineSnoc(devices: seq<(string, LinkState)>, name: string, s: LinkState)
    requires devices != []
    ensures StatusLine(devices + [(name, s)]) == StatusLine(devices) + " | " + StatusPart(name, s)
  {
    var parts := StatusParts(devices);
    assert StatusParts(devices + [(name, s)]) == parts + [StatusPart(name, s)];
    JoinSnoc(parts, StatusPart(name, s), " | ");
  }

  /** One connected device and one down with error "timeout". */
  lemma StatusTwoDevices()
    ensures StatusLine([("dev1", LinkState(true, None)), ("dev2", LinkState(false, Some("timeout")))])
         == "dev1: verbunden | dev2: timeout"
  {
    var first := [("dev1", LinkState(true, None))];
    var both := [("dev1", LinkState(true, None)), ("dev2", LinkState(false, Some("timeout")))];
    assert first + [("dev2", LinkState(false, Some("timeout")))] == both;
    StatusLineSnoc(first, "dev2", LinkState(false, Some("timeout")));
    assert StatusLine(first) == "dev1: verbunden";
    assert StatusPart("dev2", LinkState(false, Some("timeout"))) == "dev2: timeout";
  }

  /**
   * After any read cycle the status shows either the live connection or the
   * recorded error: "nicht verbunden" only appears before the first cycle.
   */
  lemma StatusAfterCycle(name: string, s: LinkState, tags: seq<Tag>, env: ClientEnv, dec: Decoders)
    ensures var t := ReadTagsSpec(s, tags, env, dec).0;
      StatusPart(name, t) == if t.connected then name + ": verbunden" else name + ": " + t.lastError.value
  {
    var e := AfterEnsure(s, env.alive, env.connect);
    if !e.connected && Attempts(s, env.alive) {
      match env.connect
      case Returned(alive) =>
        assert e.lastError == Some(UnknownIssue);
      case Raised(msg) =>
        assert e.lastError.value[0] == 'C';
    } else if e.connected {
      var k := FirstFailure(PassOutcomes(tags, env.readAt, dec));
      if k < |tags| {
        var t := ReadTagsSpec(s, tags, env, dec).0;
        assert t.lastError.value[0] == 'R';
      }
    }
  }

  /** The devices' names and states, in configuration order. */
  function Views(managers: seq<PLCManager>): (views: seq<(string, LinkState)>)
    reads managers
    ensures |views| == |managers|
    ensures forall i :: 0 <= i < |managers| ==> views[i] == (managers[i].name, managers[i].State())
  {
    if managers == [] then [] else [(managers[0].name, managers[0].State())] + Views(managers[1..])
  }

  /**
   * `/health`: each device name to its connected flag; when two devices
   * share a name, the later one in the configuration wins.
   */
  function Health(devices: seq<(string, LinkState)>): (health: map<string, bool>)
    ensures health.Keys == set i | 0 <= i < |devices| :: devices[i].0
    ensures |devices| > 0 ==> health[devices[|devices| - 1].0] == devices[|devices| - 1].1.connected
  {
    if devices == [] then map[]
    else
      var init := devices[..|devices| - 1];
      var last := devices[|devices| - 1];
      assert (set i | 0 <= i < |devices| :: devices[i].0) == (set i | 0 <= i < |init| :: init[i].0) + {last.0};
      Health(init)[last.0 := last.1.connected]
  }

  /** The flag under a name is that of the last device with that name. */
  lemma {:induction false} HealthLatest(devices: seq<(string, LinkState)>, i: nat)
    requires i < |devices|
    requires forall j :: i < j < |devices| ==> devices[j].0 != devices[i].0
    ensures devices[i].0 in Health(devices)
    ensures Health(devices)[devices[i].0] == devices[i].1.connected
  {
    if i < |devices| - 1 {
      HealthLatest(devices[..|devices| - 1], i);
    }
  }

  /** The keys of one device's signals, in tag order. */
  function DeviceSignals(manager: PLCManager): (keys: seq<string>)
    ensures |keys| == |manager.tags|
    ensures forall j :: 0 <= j < |keys| ==> keys[j] == SignalKey(manager.name, manager.tags[j].name)
  {
    seq(|manager.tags|, j requires 0 <= j < |manager.tags| => SignalKey(manager.name, manager.tags[j].name))
  }

  /** `index`: every configured `"<device>.<tag>"` key, device by device, each in tag order. */
  function AllSignals(managers: seq<PLCManager>): (keys: seq<string>)
    ensures forall i, j :: 0 <= i < |managers| && 0 <= j < |managers[i].tags| ==>
      SignalKey(managers[i].name, managers[i].tags[j].name) in keys
    ensures forall k :: k in keys ==>
      exists i, j :: 0 <= i < |managers| && 0 <= j < |managers[i].tags| &&
                     k == SignalKey(managers[i].name, managers[i].tags[j].name)
  {
    if managers == [] then []
    else DeviceSignals(managers[0]) + AllSignals(managers[1..])
  }
}
