# Job registry and admission control of the proof server

The server runs long proof computations on background threads and lets HTTP clients follow
them by handle. `ServState` (src/polling.rs) is the piece with behaviour:

- a process-wide counter issues each job's handle (`enqueue`);
- a map from handle to job record holds each job's class name and the receiving end of
  its outcome channel; `get` polls a job without blocking and forgets it once its result
  has been handed out, `remove` forgets it unconditionally and cancels its thread;
- `job_num`, `job_limit` and `job_available` count live jobs per class and compare the
  count with a configured per-class limit (no limit configured means `u64::MAX`);
- `verify_token` checks an access token against the configured list.

The project has two modules.

- `Polling` (polling.dfy) holds the data model: `PollingState` and `PollingError` as in the
  source, `WorkerProp` with an abstract channel state `Empty | Ready(v) | Closed`, and the
  opaque JSON value as a type parameter `V`. The read-only queries are functions of the
  registry's map and the configuration. The three mutating operations are specified as
  functions of the registry value (`EnqueueStep`, `GetStep`, `RemoveStep`), each returning
  the reply and the new registry. The class `ServState` holds the job map and the handle
  counter as fields. Its methods `Enqueue`, `Get` and `Remove` update them in place and are
  proved to agree with those functions. Every method keeps the invariant that each live
  handle was issued by the counter.
- `PollingProperties` (polling_properties.dfy) proves what holds across calls:
  - per-class counts change by exactly one;
  - the admission check behaves as described below;
  - over any sequence of calls and worker events, handles come out consecutive and
    strictly increasing;
  - a job whose result was read, or which was removed, is never found again.

  A worker thread's side of the channel is an event in that sequence: it either sends its
  value or ends without sending. The environment model is `PollingProperties.Event`,
  `Deliver` (the worker's `tx.send`, src/system.rs:35), `HangUp` (the worker ends
  without sending), `After` (one event) and `Run` (a sequence of events). `Handles` lists
  the handles the enqueues in a sequence receive.

The handle counter is a global atomic in the server. It is a field of `ServState` here,
because the server creates exactly one `ServState` before any handle is issued, so the
counter starts at 0 together with the empty map.

The per-class limits are a `map<string, nat>`, as `job_limit` uses them
(src/polling.rs:73). The configuration type in src/config.rs:15 declares `job_limits` as
a list of name/limit records. That does not match the map lookup in polling.rs. The model
follows polling.rs.

## Model

| member | source | states |
|---|---|---|
| `Polling.VerifyToken` | src/polling.rs:61-63 | a token is accepted exactly when it occurs in the configured list of allowed tokens |
| `Polling.JobNum` | src/polling.rs:65-70 | the count of live jobs of a class is at most the number of live jobs, and it is zero exactly when no live job has that class |
| `Polling.JobLimit` | src/polling.rs:72-74 | a configured class gets its configured limit; an unconfigured class gets `u64::MAX` |
| `Polling.JobAvailable` | src/polling.rs:76-81 | an unconfigured class is admitted while fewer than `u64::MAX` jobs are live; a class with limit 0 is never admitted; a class with no live job is admitted exactly when its limit is positive |
| `Polling.Receive` | src/polling.rs:94-98 | a non-blocking receive yields `Done` with the sent value exactly when a value is waiting, `Pending` exactly when the worker is still running without having sent, and `Error(Disconnected)` exactly when the worker ended without sending |
| `Polling.EnqueueStep` | src/polling.rs:83-88 | replies `Started(t)` where `t` is the counter before the call; the counter advances by one; `t` now maps to the new job and every other entry is unchanged; if every live handle was issued, `t` was not in use and the invariant still holds |
| `Polling.GetStep` | src/polling.rs:90-110 | `Error(NotExist)` exactly when there is no record; otherwise the channel's outcome; `Done` exactly when a value was waiting, and then only that record is dropped; any other reply leaves the registry unchanged |
| `Polling.RemoveStep` | src/polling.rs:112-125 | `Removed` exactly when a record exists, and then only that record is dropped; otherwise `Error(NotExist)` and nothing changes |
| `Polling.ServState.constructor` | src/polling.rs:51-59 | a new registry has no jobs and its counter at 0, and keeps the given configuration |
| `Polling.ServState.Enqueue` | src/polling.rs:83-88 | updates the job map and counter in place exactly as `EnqueueStep`, with a handle that was not in use, and keeps the invariant |
| `Polling.ServState.Get` | src/polling.rs:90-110 | replies and updates the job map in place exactly as `GetStep`, and keeps the invariant |
| `Polling.ServState.Remove` | src/polling.rs:112-125 | replies and updates the job map in place exactly as `RemoveStep`; a removed job's handle is recorded as cancelled |
| `PollingProperties.EnqueueCounts` | src/polling.rs:83-88 | enqueuing a job raises its class's count by exactly one and leaves every other class's count unchanged |
| `PollingProperties.GetCounts` | src/polling.rs:101-105 | a poll that returns `Done` lowers that job's class count by exactly one; any other poll changes no count |
| `PollingProperties.RemoveCounts` | src/polling.rs:112-113 | removing a live job lowers its class count by exactly one; removing an absent handle changes no count |
| `PollingProperties.LiveAtMostIssued` | src/polling.rs:84-85 | there are never more live jobs than handles issued |
| `PollingProperties.UnconfiguredAlwaysAvailable` | src/polling.rs:72-81 | a class with no configured limit is always admitted while the counter is below `u64::MAX` |
| `PollingProperties.ReleaseReopens` | src/polling.rs:76-81 | after a job leaves, by removal or by a poll that read its result, its class admits a new job exactly when the old count was at most the limit, so a class filled exactly to its limit opens again |
| `PollingProperties.EnqueueIgnoresLimit` | src/polling.rs:83-88 | `enqueue` starts a job even when its class is full, after which the class holds more jobs than its limit |
| `PollingProperties.SealScenario` | src/polling.rs:72-88 | with limit 2 on "seal", two started "seal" jobs close the class; removing the first, or reading the second's result, opens it again |
| `PollingProperties.HandlesAreConsecutive` | src/polling.rs:84 | over any sequence of calls and worker events, the handles issued are the successive counter values, one per enqueue with no gap |
| `PollingProperties.HandlesIncrease` | src/polling.rs:84-85 | handles issued over any sequence are strictly increasing, and none of them names a job that was live when the sequence started |
| `PollingProperties.RunKeeps` | src/polling.rs:83-125 | over any sequence of events every live handle stays an issued one, and a retired handle stays retired |
| `PollingProperties.DoneSeenOnce` | src/polling.rs:101-105 | after a poll returned `Done`, whatever happens next, polling or removing that handle returns `Error(NotExist)` and changes nothing |
| `PollingProperties.RemovalIsFinal` | src/polling.rs:112-125 | after `remove` returned `Removed`, whatever happens next, polling or removing that handle returns `Error(NotExist)` and changes nothing |
| `PollingProperties.UnissuedIsAbsent` | src/polling.rs:90-99 | polling or removing a handle not issued yet returns `Error(NotExist)` and changes nothing |
| `PollingProperties.PollWithoutResultKeeps` | src/polling.rs:101-109 | a poll that does not return `Done` (`Pending`, `Error(Disconnected)` or `Error(NotExist)`) leaves the registry unchanged |
| `PollingProperties.DisconnectedPersists` | src/polling.rs:96-109 | a job found disconnected keeps answering `Error(Disconnected)`, with the poll changing nothing, across any later calls and worker events that do not remove it |
| `PollingProperties.PollingScenario` | src/system.rs:30-39 | a job whose worker sends its value later is `Pending` when polled at once, `Done` with that value once it was sent, and `Error(NotExist)` on the next poll |

## Left out

- Polling.EnqueueStep: the handle counter is unbounded. The 64-bit wrap-around after 2^64 enqueues (src/polling.rs:14, 84) is not modelled.
- Polling.ServState.Enqueue: same unbounded counter as `EnqueueStep`.
- Polling.ServState.Remove: thread cancellation (`pthread_cancel`, src/polling.rs:115-119) is a foreign call. The model records only that cancellation was requested, in the ghost set `cancelled`. What the cancelled thread does afterwards is not modelled.
- The once-only construction guard (src/polling.rs:53) is a global runtime assertion. The model assumes a single `ServState`, and its counter starts at 0 when it is created.
- Threads, `mpsc` channels and atomics (src/polling.rs:9-14). The mutex in src/system.rs serialises every call, so each operation is one atomic step. A channel is the abstract state `Empty | Ready(v) | Closed`. A worker sends at most one value.
- The JSON value is an opaque type parameter. Serialisation of `PollingState` is not modelled.
- The `u64` cast of the count in `job_num` (src/polling.rs:69) is not modelled. It cannot truncate, because the count is a `usize`, which is at most 64 bits wide.
- Configuration fields the registry does not read (`auth`, `listen_addr`, certificates) are left out. So is `Config`'s declared list type for `job_limits` (see above).
- The HTTP handlers in src/system.rs are left out. They only lock the mutex and call `ServState`. `query_load` reports a fixed limit of 5 instead of `job_limit`. `upload_file` is file I/O.
- src/main.rs (command line, logging, configuration loading, routing, TLS), src/mid/verify.rs (request middleware) and src/types.rs (conversions into an external proof library) are not part of this model.
- Debug logging in `get` and `remove` is left out.
