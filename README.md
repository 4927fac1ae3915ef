# PLC dashboard core, modelled in Dafny

This project models the sequential core of a small monitoring service. The service polls Siemens S7 controllers, keeps a bounded recent history per signal and serves that history, plus link health, to a charting page. Three pieces are modelled:

- **History store** (`DataBuffer`, module `History`). A map from signal key to a FIFO with one fixed capacity. Appending to a full FIFO evicts its oldest sample. A snapshot gives one copy per requested key, and the empty history for a key that was never written.
- **Connection manager** (`PLCManager`). The pure rules are in module `Link`; the class with the fields `connected` and `last_error` is in module `Manager`. `connect`, `_ensure_connection`, `_parse_value` and `read_tags` are covered. `read_tags` is a fail-fast pass that keeps its partial result. The field-bus client is an environment of outcomes (`ClientEnv`): what a connect attempt does, what `get_connected()` reports, and what the i-th block read of a pass returns.
- **One polling cycle and the query handlers** (modules `Reader` and `Query`). A reader cycle appends every returned value under `"<device>.<tag>"`, all stamped with the cycle start time. The query handlers cover the `signals` parameter parsing, the status string, the `/health` map and the index page's key list.

The `read_tags` result is a Python dict, modelled as an association list in insertion order (module `Dicts`). Assigning to a present key replaces its value in place.

## Model

| member | source | states |
|---|---|---|
| DataModel.SignalKey | plc_dashboard.py:129 | the key `"<device>.<signal>"` splits back into device and signal, so one device's signals never share a key |
| History.Push | plc_dashboard.py:34-41 | appending to a deque with `maxlen` keeps it within the capacity and puts the new sample last (when the capacity is positive) |
| History.PushKeepsLast | plc_dashboard.py:34-41 | pushing onto the last `cap` samples of a sequence gives the last `cap` samples of the sequence extended by the new one |
| History.Replay | plc_dashboard.py:34-41 | the history built by any series of appends to one key never exceeds the capacity |
| History.ReplayKeepsLast | plc_dashboard.py:34-41 | after any series of appends to one key, its history is the last `cap` appended samples, in insertion order |
| History.ReplayOverflow | plc_dashboard.py:34-41 | after `cap + k` appends the history is exactly the appended samples from index `k` on |
| History.CapacityThreeKeepsLastThree | plc_dashboard.py:34-41 | with capacity 3, appending t = 1, 2, 3, 4 leaves t = 2, 3, 4 |
| History.HistoryOf | plc_dashboard.py:45 | a key absent from the store has the empty history (`.get(key, [])`) |
| History.AppendTo | plc_dashboard.py:39-41 | append creates the key on first use and pushes onto its history; every other key's history is unchanged, and every history stays within the capacity |
| History.DataBuffer.constructor | plc_dashboard.py:33-36 | a new store is empty and has the given capacity |
| History.DataBuffer.Append | plc_dashboard.py:39-41 | the store after `append` is `AppendTo` of the old store, and the capacity bound is kept |
| History.DataBuffer.Snapshot | plc_dashboard.py:43-45 | one entry per distinct requested key, holding that key's history or the empty one; nothing is added to the store; each entry is within the capacity |
| History.CapacityThreeScenario | plc_dashboard.py:33-45 | capacity 3, four appends to "A.x", then a snapshot of "A.x" and "B.y" gives the last three samples and an empty list |
| Text.Lower | plc_dashboard.py:86 | lower-casing keeps the length and maps each character through the ASCII lower-case table |
| Text.Split | plc_dashboard.py:323 | `str.split(",")` gives at least one piece, and no piece contains the separator |
| Text.JoinSplit | plc_dashboard.py:323 | joining the pieces of a split with the separator gives back the original string |
| Text.SplitJoin | plc_dashboard.py:323 | splitting the join of separator-free pieces gives back those pieces |
| Text.JoinSnoc | plc_dashboard.py:333 | joining one more part gives the old join, the separator, then the new part |
| Dicts.PutKeys | plc_dashboard.py:104 | `values[name] = v` adds the name to the dict's keys and maps it to `v` |
| Dicts.PutOther | plc_dashboard.py:104 | assigning one name leaves the value of every other name unchanged |
| Dicts.PutDistinct | plc_dashboard.py:104 | a dict never holds a key twice, before or after an assignment |
| Dicts.PutNew | plc_dashboard.py:104 | a name not yet present is added at the end, after all present keys |
| Dicts.PutInPlace | plc_dashboard.py:104 | assigning a present name replaces its value at its position and leaves the length and every other entry as they were |
| Link.AfterConnect | plc_dashboard.py:60-75 | connect does nothing when connected; otherwise `connected` becomes the client's `get_connected()`, `last_error` is `None` exactly when connected, `"Unknown connection issue"` when the client reports no session, and `"Connection error: <exc>"` with `connected` false when the client raises |
| Link.AfterEnsure | plc_dashboard.py:77-81 | a live connection is left as it is, with no attempt; otherwise the link is marked down and one connect attempt decides it; the result is connected exactly when it was live or the attempt succeeded |
| Link.EnsureIdempotent | plc_dashboard.py:60-63 | once `_ensure_connection` has succeeded, a second call while the client is alive makes no attempt and changes nothing |
| Link.ParseValueDispatch | plc_dashboard.py:83-95 | a custom `parse` wins whatever `data_type` says; otherwise the lower-cased type name selects the real, int, dint or bool decoder, and any other name fails with `"Unsupported data type: <data_type>"` |
| Link.ParseValueIgnoresCase | plc_dashboard.py:86-94 | two spellings of a supported type name with the same lower-case form decode alike |
| Link.OutcomeAt | plc_dashboard.py:101-104 | the i-th outcome of a pass is the block read of the i-th tag, in tag order, followed by its decode; a failed read is a failure with the client's message |
| Link.StopFrom | plc_dashboard.py:101-109 | the pass stops at the first tag whose read or decode fails, and every tag before it succeeded |
| Link.CollectKeys | plc_dashboard.py:98-104 | after storing the first `n` tags the dict's keys are exactly their names, with no duplicates |
| Link.CollectLatest | plc_dashboard.py:104 | a name maps to the value of the last tag of that name that was stored |
| Link.ReadTagsOutcome | plc_dashboard.py:97-110 | nothing is read and the dict is empty when the connection cannot be ensured; otherwise the keys are exactly the names of the tags before the first failure; the link stays connected, with `last_error` untouched, exactly when no tag fails, and then every tag is present |
| Link.ReadFailureRecorded | plc_dashboard.py:105-109 | a failing tag sets `connected` false and `last_error` to `"Read error for <tag>: <exc>"` |
| Link.ThirdOfFiveFails | plc_dashboard.py:101-110 | of five tags whose third fails, exactly the first two are returned and the link is down |
| Link.LaterTagsUnread | plc_dashboard.py:101-109 | what the client would return for tags after the first failure does not affect the pass: they are not read |
| Manager.PLCManager.constructor | plc_dashboard.py:49-58 | a new manager is disconnected with no error and has made no connect attempt |
| Manager.PLCManager.Connect | plc_dashboard.py:60-75 | the new fields are `AfterConnect` of the old ones, and the client's `connect` is called exactly when the manager was not connected |
| Manager.PLCManager.EnsureConnection | plc_dashboard.py:77-81 | the new fields are `AfterEnsure` of the old ones, the result is the new `connected`, and a connect attempt is made exactly when the link was down or the client reported it dead |
| Manager.PLCManager.ReadTags | plc_dashboard.py:97-110 | the loop with its early `break` yields exactly the state and dict of `ReadTagsSpec` |
| Reader.AppendCycle | plc_dashboard.py:128-130 | after a cycle's appends the store holds the old keys plus `"<device>.<name>"` for each returned name, all within the capacity |
| Reader.AppendCycleHit | plc_dashboard.py:126-130 | each returned `(name, value)` is appended exactly once, under `"<device>.<name>"`, as a sample stamped with the cycle start time |
| Reader.AppendCycleMiss | plc_dashboard.py:128-130 | no other key's history changes in a cycle |
| Reader.RunCycle | plc_dashboard.py:126-130 | one loop iteration leaves the manager in the `ReadTagsSpec` state and the store equal to `AppendCycle` of the returned dict at the start time |
| Query.NonEmpty | plc_dashboard.py:323 | the kept pieces are exactly the non-empty ones |
| Query.SelectedKeys | plc_dashboard.py:322-323 | the selected keys are exactly the non-empty pieces of the comma split, and none contains a comma |
| Query.SelectedKeysOfJoin | plc_dashboard.py:322-323 | a comma-joined list of non-empty, comma-free keys parses back to that list; the empty parameter selects nothing |
| Query.Series | plc_dashboard.py:322-324 | the series has one entry per selected key, holding that key's history |
| Query.StatusParts | plc_dashboard.py:325-332 | one status part per device, in configuration order |
| Query.StatusLine | plc_dashboard.py:333 | no devices give the empty string and one device gives its part alone |
| Query.StatusLineSnoc | plc_dashboard.py:325-333 | each further device adds the separator (space, vertical bar, space) and its part at the end, in configuration order |
| Query.StatusTwoDevices | plc_dashboard.py:325-333 | a connected `dev1` and a `dev2` down with error "timeout" give "dev1: verbunden", the separator, then "dev2: timeout" |
| Query.StatusAfterCycle | plc_dashboard.py:327-332 | after any `read_tags` call the status part shows either `verbunden` or the recorded (non-empty) error, never `nicht verbunden` |
| Query.Views | plc_dashboard.py:326-327 | the devices' names and connection fields are read in configuration order |
| Query.Health | plc_dashboard.py:338 | the health map's keys are exactly the device names, and the last device decides its name's flag |
| Query.HealthLatest | plc_dashboard.py:338 | a name's flag is the `connected` of the last device with that name |
| Query.DeviceSignals | plc_dashboard.py:316 | one key per tag of the device, in tag order |
| Query.AllSignals | plc_dashboard.py:316 | the index lists every `"<device>.<tag>"` key of the configuration and nothing else |

## Left out

- Threads, locks and the stop event (`threading.Lock`, `PLCReader` as a thread, `start_readers`, `stop_readers`, `join(timeout=1.0)`) are not modelled. Each locked block is treated as atomic. Only one iteration of the reader loop is modelled (`Reader.RunCycle`); the stop flag is tested only between iterations, so it never splits one.
- `time.time()` and `time.sleep()`: the cycle start time is a parameter of `RunCycle`, and the sleep is not modelled. Timestamps are Dafny `real`s, not floats.
- The snap7 client is not part of this model. Each cycle's client behaviour is a `ClientEnv` parameter: a connect outcome, the `get_connected()` report, and the result of the i-th `db_read`. The addresses (`ip`, `rack`, `slot`, `db_number`, `start`, `size`) are kept, but they do not influence the outcomes.
- Link.AfterEnsure: an exception raised by the `get_connected()` call in `_ensure_connection` (outside any `try`, so it would end the reader thread) is not modelled.
- The decoders `get_real`, `get_int`, `get_dint` and `get_bool` are abstract functions (`Decoders`), because their byte layouts and IEEE-754 floats belong to the library. Decoded values are the opaque `Value` datatype.
- Link.ParseValue: `str.lower()` is modelled on ASCII letters only. No non-ASCII character lower-cases to one of the letters of "real", "int", "dint" or "bool", so the dispatch is decided exactly. The error text keeps the type name as written.
- History.DataBuffer.constructor: the capacity is a `nat`. A negative `maxlen` makes every first append to a key raise `ValueError` in the source; that case is not modelled.
- The Flask app, `request`, `jsonify`, the HTML and JavaScript page and `app.run` are transport and UI and are not modelled. Only the list and map comprehensions of `index`, `data` and `health` are modelled.
- Logging calls, the configuration literal, `build_managers` and the module-level globals are static data and plumbing.
