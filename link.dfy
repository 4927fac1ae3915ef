/**
 * The connection and read logic of one device (`PLCManager`) as functions
 * of its state: `connect`, `_ensure_connection`, `_parse_value` and the
 * fail-fast pass of `read_tags`. The field-bus client is an environment
 * of outcomes: what `connect` does, what `get_connected()` reports, and
 * what the i-th block read of a pass returns.
 */
module Link {
  import opened Wrappers
  import opened DataModel
  import opened Text
  import opened Dicts

  /** The error recorded when `connect` returns but the client reports no session. */
  const UnknownIssue: string := "Unknown connection issue"

  /** The names `_parse_value` accepts after lower-casing the type name. */
  const SupportedTypes: set<string> := {"real", "int", "dint", "bool"}

  /** The fields `connected` and `last_error`. */
  datatype LinkState = LinkState(connected: bool, lastError: Option<string>)

  /**
   * One connect attempt of the client: it returns, after which
   * `get_connected()` reports `alive`, or it raises an exception with text `msg`.
   */
  datatype ConnectOutcome = Returned(alive: bool) | Raised(msg: string)

  /** A decoder's result: a value, or an exception with text `msg`. */
  datatype Decoded = Decoded(value: Value) | Failed(msg: string)

  /** A block read: the bytes, or an exception with text `msg`. */
  datatype RawRead = Raw(bytes: Bytes) | ReadFailed(msg: string)

  /** A signal: where it lives in the device, its type name and an optional custom decoder. */
  datatype Tag = Tag(name: string, dbNumber: int, start: int, size: int,
                     dataType: string, parse: Option<Bytes -> Decoded>)

  /** The library's byte decoders for the four supported types, each reading at offset 0. */
  datatype Decoders = Decoders(getReal: Bytes -> Decoded, getInt: Bytes -> Decoded,
                               getDint: Bytes -> Decoded, getBool: Bytes -> Decoded)

  /** What the client does during one read cycle. */
  datatype ClientEnv = ClientEnv(alive: bool, connect: ConnectOutcome, readAt: nat -> RawRead)

  /** `connect()`: nothing when already connected, otherwise one attempt decides both fields. */
  function AfterConnect(s: LinkState, outcome: ConnectOutcome): (t: LinkState)
    ensures s.connected ==> t == s
    ensures !s.connected ==> (t.connected <==> outcome == Returned(true))
    ensures !s.connected ==> (t.lastError == None <==> t.connected)
    ensures !s.connected && outcome == Returned(false) ==> t.lastError == Some(UnknownIssue)
    ensures !s.connected && outcome.Raised? ==> t.lastError == Some("Connection error: " + outcome.msg)
  {
    if s.connected then s
    else
      match outcome
      case Returned(alive) => LinkState(alive, if alive then None else Some(UnknownIssue))
      case Raised(msg) => LinkState(false, Some("Connection error: " + msg))
  }

  /**
   * Whether `_ensure_connection` makes a connect attempt; `alive` is what
   * `get_connected()` reports, consulted only when `s.connected`.
   */
  predicate Attempts(s: LinkState, alive: bool)
  {
    !s.connected || !alive
  }

  /** `_ensure_connection()`: keep a live connection, otherwise mark it down and connect. */
  function AfterEnsure(s: LinkState, alive: bool, outcome: ConnectOutcome): (t: LinkState)
    ensures !Attempts(s, alive) ==> t == s
    ensures Attempts(s, alive) ==> t == AfterConnect(LinkState(false, s.lastError), outcome)
    ensures t.connected <==> (s.connected && alive) || outcome == Returned(true)
  {
    if Attempts(s, alive) then AfterConnect(s.(connected := false), outcome) else s
  }

  /** Once `_ensure_connection` has succeeded, a second call while the client is alive changes nothing. */
  lemma EnsureIdempotent(s: LinkState, alive: bool, outcome: ConnectOutcome, outcome': ConnectOutcome)
    requires AfterEnsure(s, alive, outcome).connected
    ensures !Attempts(AfterEnsure(s, alive, outcome), true)
    ensures AfterEnsure(AfterEnsure(s, alive, outcome), true, outcome') == AfterEnsure(s, alive, outcome)
  {
  }

  /** `_parse_value(tag, raw)`. */
  function ParseValue(tag: Tag, raw: Bytes, dec: Decoders): Decoded
  {
    if tag.parse.Some? then tag.parse.value(raw)
    else
      var dataType := Lower(tag.dataType);
      if dataType == "real" then dec.getReal(raw)
      else if dataType == "int" then dec.getInt(raw)
      else if dataType == "dint" then dec.getDint(raw)
      else if dataType == "bool" then dec.getBool(raw)
      else Failed("Unsupported data type: " + tag.dataType)
  }

  /**
   * A custom decoder wins whatever the type name says; otherwise the
   * lower-cased type name picks a library decoder, and an unknown type
   * fails with a message naming the type as written.
   */
  lemma ParseValueDispatch(tag: Tag, raw: Bytes, dec: Decoders)
    ensures tag.parse.Some? ==> ParseValue(tag, raw, dec) == tag.parse.value(raw)
    ensures tag.parse.None? && Lower(tag.dataType) !in SupportedTypes ==>
      ParseValue(tag, raw, dec) == Failed("Unsupported data type: " + tag.dataType)
    ensures tag.parse.None? && Lower(tag.dataType) == "real" ==> ParseValue(tag, raw, dec) == dec.getReal(raw)
    ensures tag.parse.None? && Lower(tag.dataType) == "int" ==> ParseValue(tag, raw, dec) == dec.getInt(raw)
    ensures tag.parse.None? && Lower(tag.dataType) == "dint" ==> ParseValue(tag, raw, dec) == dec.getDint(raw)
    ensures tag.parse.None? && Lower(tag.dataType) == "bool" ==> ParseValue(tag, raw, dec) == dec.getBool(raw)
  {
  }

  /**
   * The type name is matched without regard to case: two spellings with
   * the same lower-case form decode alike, "REAL" as "real".
   */
  lemma ParseValueIgnoresCase(tag: Tag, dataType: string, raw: Bytes, dec: Decoders)
    requires Lower(dataType) == Lower(tag.dataType) && Lower(dataType) in SupportedTypes
    ensures ParseValue(tag.(dataType := dataType), raw, dec) == ParseValue(tag, raw, dec)
    ensures Lower("REAL") == "real"
  {
  }

  /** One tag of a pass: the block read, then `_parse_value` on the bytes; either may fail. */
  function ReadTag(tag: Tag, raw: RawRead, dec: Decoders): Decoded
  {
    match raw
    case ReadFailed(msg) => Failed(msg)
    case Raw(bytes) => ParseValue(tag, bytes, dec)
  }

  /** What the first `n` tags give when read in turn: tag `i` gets the client's `i`-th block read. */
  function Outcomes(tags: seq<Tag>, readAt: nat -> RawRead, dec: Decoders, n: nat): (rs: seq<Decoded>)
    requires n <= |tags|
    ensures |rs| == n
  {
    if n == 0 then [] else Outcomes(tags, readAt, dec, n - 1) + [ReadTag(tags[n - 1], readAt(n - 1), dec)]
  }

  function PassOutcomes(tags: seq<Tag>, readAt: nat -> RawRead, dec: Decoders): (rs: seq<Decoded>)
    ensures |rs| == |tags|
  {
    Outcomes(tags, readAt, dec, |tags|)
  }

  /** The `i`-th outcome is that of reading and decoding tag `i`. */
  lemma {:induction false} OutcomeAt(tags: seq<Tag>, readAt: nat -> RawRead, dec: Decoders, n: nat, i: nat)
    requires i < n <= |tags|
    ensures Outcomes(tags, readAt, dec, n)[i] == ReadTag(tags[i], readAt(i), dec)
  {
    if i < n - 1 {
      OutcomeAt(tags, readAt, dec, n - 1, i);
    }
  }

  /** The index of the first failure at or after `i`, or `|rs|` when none fails. */
  function StopFrom(rs: seq<Decoded>, i: nat): (k: nat)
    requires i <= |rs|
    ensures i <= k <= |rs|
    ensures forall j :: i <= j < k ==> rs[j].Decoded?
    ensures k < |rs| ==> rs[k].Failed?
    decreases |rs| - i
  {
    if i == |rs| then i
    else if rs[i].Failed? then i
    else StopFrom(rs, i + 1)
  }

  function FirstFailure(rs: seq<Decoded>): nat
  {
    StopFrom(rs, 0)
  }

  /** The result dict after storing the values of the first `n` tags, in order. */
  function Collect(tags: seq<Tag>, rs: seq<Decoded>, n: nat): (d: Dict)
    requires n <= |tags| && n <= |rs|
    requires forall j :: 0 <= j < n ==> rs[j].Decoded?
  {
    if n == 0 then [] else Put(Collect(tags, rs, n - 1), tags[n - 1].name, rs[n - 1].value)
  }

  /** After storing the first `n` tags the dict's keys are exactly their names. */
  lemma {:induction false} CollectKeys(tags: seq<Tag>, rs: seq<Decoded>, n: nat)
    requires n <= |tags| && n <= |rs|
    requires forall j :: 0 <= j < n ==> rs[j].Decoded?
    ensures Keys(Collect(tags, rs, n)) == set j | 0 <= j < n :: tags[j].name
    ensures DistinctKeys(Collect(tags, rs, n))
  {
    if n > 0 {
      CollectKeys(tags, rs, n - 1);
      PutKeys(Collect(tags, rs, n - 1), tags[n - 1].name, rs[n - 1].value);
      PutDistinct(Collect(tags, rs, n - 1), tags[n - 1].name, rs[n - 1].value);
      NamesSnoc(tags, n);
    }
  }

  /** The names of the first `n` tags are those of the first `n - 1` and the `n`-th. */
  lemma NamesSnoc(tags: seq<Tag>, n: nat)
    requires 0 < n <= |tags|
    ensures (set j | 0 <= j < n :: tags[j].name) == (set j | 0 <= j < n - 1 :: tags[j].name) + {tags[n - 1].name}
  {
  }

  /** A tag's name maps to the value of the last tag of that name among the first `n`. */
  lemma {:induction false} CollectLatest(tags: seq<Tag>, rs: seq<Decoded>, n: nat, j: nat)
    requires n <= |tags| && n <= |rs|
    requires forall i :: 0 <= i < n ==> rs[i].Decoded?
    requires j < n
    requires forall i :: j < i < n ==> tags[i].name != tags[j].name
    ensures Get(Collect(tags, rs, n), tags[j].name) == Some(rs[j].value)
  {
    if j < n - 1 {
      CollectLatest(tags, rs, n - 1, j);
      PutOther(Collect(tags, rs, n - 1), tags[n - 1].name, rs[n - 1].value, tags[j].name);
    } else {
      PutKeys(Collect(tags, rs, n - 1), tags[n - 1].name, rs[n - 1].value);
    }
  }

  /** One more successful tag before the first failure extends the collected dict by that tag. */
  lemma CollectNext(tags: seq<Tag>, rs: seq<Decoded>, i: nat)
    requires |rs| == |tags|
    requires i < |tags| && i <= FirstFailure(rs) && rs[i].Decoded?
    ensures i + 1 <= FirstFailure(rs)
    ensures Collect(tags, rs, i + 1) == Put(Collect(tags, rs, i), tags[i].name, rs[i].value)
  {
  }

  /** A failure reached without an earlier one is the first failure. */
  lemma FailureIsFirst(rs: seq<Decoded>, i: nat)
    requires i < |rs| && i <= FirstFailure(rs) && rs[i].Failed?
    ensures i == FirstFailure(rs)
  {
  }

  /** The `last_error` text of a failed read of `tag`. */
  function ReadError(tag: Tag, msg: string): string
  {
    "Read error for " + tag.name + ": " + msg
  }

  /**
   * `read_tags()`: the new state and the returned dict. Nothing is read when
   * the connection cannot be ensured; otherwise the tags are read in order
   * up to the first failure, which disconnects and records its error.
   */
  function ReadTagsSpec(s: LinkState, tags: seq<Tag>, env: ClientEnv, dec: Decoders): (LinkState, Dict)
  {
    var ensured := AfterEnsure(s, env.alive, env.connect);
    if !ensured.connected then (ensured, [])
    else
      var rs := PassOutcomes(tags, env.readAt, dec);
      var k := FirstFailure(rs);
      var values := Collect(tags, rs, k);
      if k == |tags| then (ensured, values)
      else (LinkState(false, Some(ReadError(tags[k], rs[k].msg))), values)
  }

  /**
   * The dict of `read_tags()` is empty when the connection cannot be
   * ensured, and otherwise holds exactly the tags before the first failing
   * one; the link stays up, with `last_error` untouched, exactly when no tag
   * fails, and then every tag is present.
   */
  lemma ReadTagsOutcome(s: LinkState, tags: seq<Tag>, env: ClientEnv, dec: Decoders)
    ensures var ensured := AfterEnsure(s, env.alive, env.connect);
      !ensured.connected ==> ReadTagsSpec(s, tags, env, dec) == (ensured, [])
    ensures var ensured := AfterEnsure(s, env.alive, env.connect);
      ensured.connected ==>
        Keys(ReadTagsSpec(s, tags, env, dec).1)
          == set j | 0 <= j < FirstFailure(PassOutcomes(tags, env.readAt, dec)) :: tags[j].name
    ensures ReadTagsSpec(s, tags, env, dec).0.connected <==>
      AfterEnsure(s, env.alive, env.connect).connected && FirstFailure(PassOutcomes(tags, env.readAt, dec)) == |tags|
    ensures ReadTagsSpec(s, tags, env, dec).0.connected ==>
      ReadTagsSpec(s, tags, env, dec).0 == AfterEnsure(s, env.alive, env.connect) &&
      Keys(ReadTagsSpec(s, tags, env, dec).1) == set j | 0 <= j < |tags| :: tags[j].name
    ensures DistinctKeys(ReadTagsSpec(s, tags, env, dec).1)
  {
    var rs := PassOutcomes(tags, env.readAt, dec);
    CollectKeys(tags, rs, FirstFailure(rs));
  }

  /**
   * A failed pass disconnects and records `"Read error for <tag>: <exc>"`
   * for the first tag whose read or decode fails.
   */
  lemma ReadFailureRecorded(s: LinkState, tags: seq<Tag>, env: ClientEnv, dec: Decoders)
    requires AfterEnsure(s, env.alive, env.connect).connected
    requires FirstFailure(PassOutcomes(tags, env.readAt, dec)) < |tags|
    ensures var k := FirstFailure(PassOutcomes(tags, env.readAt, dec));
      ReadTag(tags[k], env.readAt(k), dec).Failed? &&
      ReadTagsSpec(s, tags, env, dec).0
        == LinkState(false, Some(ReadError(tags[k], ReadTag(tags[k], env.readAt(k), dec).msg)))
  {
    OutcomeAt(tags, env.readAt, dec, |tags|, FirstFailure(PassOutcomes(tags, env.readAt, dec)));
  }

  /** Given 5 tags of which the 3rd fails, the pass returns exactly the first 2 and disconnects. */
  lemma ThirdOfFiveFails(s: LinkState, tags: seq<Tag>, env: ClientEnv, dec: Decoders)
    requires |tags| == 5
    requires AfterEnsure(s, env.alive, env.connect).connected
    requires ReadTag(tags[0], env.readAt(0), dec).Decoded? && ReadTag(tags[1], env.readAt(1), dec).Decoded?
    requires ReadTag(tags[2], env.readAt(2), dec).Failed?
    ensures Keys(ReadTagsSpec(s, tags, env, dec).1) == {tags[0].name, tags[1].name}
    ensures !ReadTagsSpec(s, tags, env, dec).0.connected
  {
    var rs := PassOutcomes(tags, env.readAt, dec);
    OutcomeAt(tags, env.readAt, dec, 5, 0);
    OutcomeAt(tags, env.readAt, dec, 5, 1);
    OutcomeAt(tags, env.readAt, dec, 5, 2);
    assert FirstFailure(rs) == 2;
    ReadTagsOutcome(s, tags, env, dec);
    assert (set j | 0 <= j < 2 :: tags[j].name) == {tags[0].name, tags[1].name};
  }

  lemma {:induction false} StopFromAgrees(rs: seq<Decoded>, rs': seq<Decoded>, i: nat)
    requires |rs'| == |rs| && i <= |rs|
    requires forall j :: i <= j <= StopFrom(rs, i) && j < |rs| ==> rs'[j] == rs[j]
    ensures StopFrom(rs', i) == StopFrom(rs, i)
    decreases |rs| - i
  {
    if i < |rs| && rs[i].Decoded? {
      StopFromAgrees(rs, rs', i + 1);
    }
  }

  lemma {:induction false} CollectAgrees(tags: seq<Tag>, rs: seq<Decoded>, rs': seq<Decoded>, n: nat)
    requires n <= |tags| && n <= |rs| && n <= |rs'|
    requires forall j :: 0 <= j < n ==> rs[j].Decoded? && rs'[j] == rs[j]
    ensures Collect(tags, rs', n) == Collect(tags, rs, n)
  {
    if n > 0 {
      CollectAgrees(tags, rs, rs', n - 1);
    }
  }

  /**
   * No tag after the first failing one is read: what the client would
   * return for later tags does not change the pass.
   */
  lemma LaterTagsUnread(s: LinkState, tags: seq<Tag>, env: ClientEnv, env': ClientEnv, dec: Decoders)
    requires env'.alive == env.alive && env'.connect == env.connect
    requires forall j :: 0 <= j <= FirstFailure(PassOutcomes(tags, env.readAt, dec)) && j < |tags| ==>
      env'.readAt(j) == env.readAt(j)
    ensures ReadTagsSpec(s, tags, env', dec) == ReadTagsSpec(s, tags, env, dec)
  {
    var rs, rs' := PassOutcomes(tags, env.readAt, dec), PassOutcomes(tags, env'.readAt, dec);
    var k := FirstFailure(rs);
    forall j | 0 <= j <= k && j < |tags| ensures rs'[j] == rs[j] {
      OutcomeAt(tags, env.readAt, dec, |tags|, j);
      OutcomeAt(tags, env'.readAt, dec, |tags|, j);
    }
    StopFromAgrees(rs, rs', 0);
    CollectAgrees(tags, rs, rs', k);
  }
}
