/** One device's connection manager (`PLCManager`), with the fields its methods update in place. */
module Manager {
  import opened Wrappers
  import opened DataModel
  import opened Dicts
  import opened Link

  class PLCManager {
    const name: string
    const ip: string
    const rack: int
    const slot: int
    const tags: seq<Tag>
    var connected: bool
    var lastError: Option<string>
    /** How many times the client's `connect` has been called. */
    ghost var attempts: nat

    function State(): LinkState
      reads this
    {
      LinkState(connected, lastError)
    }

    constructor (name: string, ip: string, rack: int, slot: int, tags: seq<Tag>)
      ensures this.name == name && this.ip == ip && this.rack == rack && this.slot == slot
      ensures this.tags == tags
      ensures State() == LinkState(false, None) && attempts == 0
    {
      this.name := name;
      this.ip := ip;
      this.rack := rack;
      this.slot := slot;
      this.tags := tags;
      lastError := None;
      connected := false;
      attempts := 0;
    }

    /** `connect()`: returns at once when connected; otherwise one client attempt. */
    method Connect(outcome: ConnectOutcome)
      modifies this
      ensures State() == AfterConnect(old(State()), outcome)
      ensures attempts == if old(connected) then old(attempts) else old(attempts) + 1
    {
      if connected {
        return;
      }
      attempts := attempts + 1;
      match outcome {
        case Returned(alive) =>
          connected := alive;
          lastError := if connected then None else Some(UnknownIssue);
        case Raised(msg) =>
          connected := false;
          lastError := Some("Connection error: " + msg);
      }
    }

    /**
     * `_ensure_connection()`: no connect attempt while connected and the
     * client reports `alive`; otherwise marks the link down and connects.
     */
    method EnsureConnection(alive: bool, outcome: ConnectOutcome) returns (ok: bool)
      modifies this
      ensures State() == AfterEnsure(old(State()), alive, outcome)
      ensures ok == connected
      ensures attempts == if Attempts(old(State()), alive) then old(attempts) + 1 else old(attempts)
    {
      if !connected || !alive {
        connected := false;
        Connect(outcome);
      }
      ok := connected;
    }

    /**
     * `read_tags()`: reads the tags in order into a dict, stopping at the
     * first failing read or decode, which disconnects and records the error.
     */
    method ReadTags(env: ClientEnv, dec: Decoders) returns (values: Dict)
      modifies this
      ensures (State(), values) == ReadTagsSpec(old(State()), tags, env, dec)
      ensures attempts == if Attempts(old(State()), env.alive) then old(attempts) + 1 else old(attempts)
    {
      values := [];
      var ok := EnsureConnection(env.alive, env.connect);
      if !ok {
        return;
      }
      ghost var ensured := State();
      ghost var outcomes := PassOutcomes(tags, env.readAt, dec);
      ghost var stop := FirstFailure(outcomes);
      var i := 0;
      while i < |tags|
        invariant 0 <= i <= |tags|
        invariant i <= stop
        invariant values == Collect(tags, outcomes, i)
        invariant State() == ensured
        invariant attempts == if Attempts(old(State()), env.alive) then old(attempts) + 1 else old(attempts)
      {
        var tag := tags[i];
        var parsed := ReadTag(tag, env.readAt(i), dec);
        OutcomeAt(tags, env.readAt, dec, |tags|, i);
        if parsed.Failed? {
          lastError := Some(ReadError(tag, parsed.msg));
          connected := false;
          FailureIsFirst(outcomes, i);
          break;
        }
        CollectNext(tags, outcomes, i);
        values := Put(values, tag.name, parsed.value);
        i := i + 1;
      }
      assert i == stop;
    }
  }
}
