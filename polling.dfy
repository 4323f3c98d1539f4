/** The job registry and admission controller of the proof server (`ServState`).

    A job is a background computation registered under a numeric handle together with
    its class name and the receiving end of a one-shot outcome channel. The registry
    hands out handles from a counter, answers non-blocking polls, forgets a job once its
    result has been read or once it is force-removed, and counts live jobs per class so
    that callers can check a configured per-class limit before starting another one.

    `V` stands for the JSON value a finished job sends back; the registry never looks
    inside it. */
module Polling {

  /** `u64::max_value()`: the limit of a job class that has no configured limit. */
  const U64_MAX: nat := 0xFFFF_FFFF_FFFF_FFFF

  /** Why a poll or a removal could not be served. */
  datatype PollingError = NotExist | Disconnected

  /** Every reply the registry gives to its callers. */
  datatype PollingState<V> =
    | Started(token: nat)
    | Pending
    | Done(value: V)
    | Removed
    | Error(error: PollingError)

  /** What a non-blocking receive on a job's outcome channel finds: nothing yet while the
      worker still runs, the value the worker sent, or nothing ever, because the worker
      ended (crashed, was cancelled) without sending. */
  datatype Channel<V> = Empty | Ready(value: V) | Closed

  /** One registered job: its class name and the receiving end of its outcome channel.
      The worker's join handle is represented only by `ServState.cancelled`. */
  datatype WorkerProp<V> = WorkerProp(name: string, receiver: Channel<V>)

  /** The part of the server configuration the registry reads: the per-class limits and
      the accepted access tokens. */
  datatype Config = Config(jobLimits: map<string, nat>, allowTokens: seq<string>)

  /** The registry as a value: live jobs by handle, and the handle counter. */
  datatype Registry<V> = Registry(workers: map<nat, WorkerProp<V>>, counter: nat)

  /** The reply of one registry call and the registry it leaves behind. */
  datatype Step<V> = Step(reply: PollingState<V>, post: Registry<V>)

  /** Every live record carries a handle the counter has already issued. */
  ghost predicate Issued<V>(r: Registry<V>)
  {
    forall t :: t in r.workers ==> t < r.counter
  }

  /** Handle `t` was issued and its record is gone: its result was read or it was removed. */
  ghost predicate Retired<V>(r: Registry<V>, t: nat)
  {
    t < r.counter && t !in r.workers
  }

  // ---------------------------------------------------------------------------------
  // Queries

  /** `verify_token`: is `token` one of the configured access tokens? */
  function VerifyToken(config: Config, token: string): (ok: bool)
    ensures ok <==> exists i :: 0 <= i < |config.allowTokens| && config.allowTokens[i] == token
  {
    token in config.allowTokens
  }

  /** The handles of the live jobs of class `name`. */
  function Holders<V>(workers: map<nat, WorkerProp<V>>, name: string): set<nat>
  {
    set t | t in workers && workers[t].name == name
  }

  /** A subset of a finite set is no larger than the set. */
  lemma SubsetSize<T>(a: set<T>, b: set<T>)
    requires a <= b
    ensures |a| <= |b|
  {
    assert b == a + (b - a);
  }

  /** `job_num`: the number of live jobs of class `name`. It never exceeds the number of
      live jobs, and it is zero exactly when no live job has that class. */
  function JobNum<V>(workers: map<nat, WorkerProp<V>>, name: string): (n: nat)
    ensures n <= |workers|
    ensures n == 0 <==> forall t :: t in workers ==> workers[t].name != name
  {
    var held := Holders(workers, name);
    SubsetSize(held, workers.Keys);
    assert held == {} <==> forall t :: t in workers ==> workers[t].name != name by {
      if held != {} {
        var t :| t in held;
        assert t in workers && workers[t].name == name;
      } else {
        forall t | t in workers ensures workers[t].name != name {
          assert t !in held;
        }
      }
    }
    |held|
  }

  /** `job_limit`: the configured limit of class `name`; `U64_MAX`, that is no limit, when
      the class is not configured. */
  function JobLimit(config: Config, name: string): (limit: nat)
    ensures name in config.jobLimits ==> limit == config.jobLimits[name]
    ensures name !in config.jobLimits ==> limit == U64_MAX
  {
    if name in config.jobLimits then config.jobLimits[name] else U64_MAX
  }

  /** `job_available`: may another job of class `name` start? The answer is advisory:
      `enqueue` does not consult it. */
  function JobAvailable<V>(config: Config, workers: map<nat, WorkerProp<V>>, name: string): (ok: bool)
    ensures name !in config.jobLimits && |workers| < U64_MAX ==> ok
    ensures name in config.jobLimits && config.jobLimits[name] == 0 ==> !ok
    ensures (forall t :: t in workers ==> workers[t].name != name) ==> (ok <==> JobLimit(config, name) > 0)
  {
    JobNum(workers, name) < JobLimit(config, name)
  }

  // ---------------------------------------------------------------------------------
  // The registry's operations as functions of the registry value

  /** What a non-blocking receive on `ch` makes a poll report. */
  function Receive<V>(ch: Channel<V>): (s: PollingState<V>)
    ensures s.Done? || s == Pending || s == Error(Disconnected)
    ensures s.Done? <==> ch.Ready?
    ensures s.Done? ==> s.value == ch.value
    ensures s == Pending <==> ch.Empty?
    ensures s == Error(Disconnected) <==> ch.Closed?
  {
    match ch
    case Ready(v) => Done(v)
    case Empty => Pending
    case Closed => Error(Disconnected)
  }

  /** `enqueue`: the counter's value becomes the handle of `prop`, and the counter moves on. */
  function EnqueueStep<V>(r: Registry<V>, prop: WorkerProp<V>): (s: Step<V>)
    ensures s.reply == Started(r.counter) && s.post.counter == r.counter + 1
    ensures r.counter in s.post.workers && s.post.workers[r.counter] == prop
    ensures forall t :: t != r.counter ==>
              (t in s.post.workers <==> t in r.workers)
              && (t in r.workers ==> s.post.workers[t] == r.workers[t])
    ensures Issued(r) ==> r.counter !in r.workers && Issued(s.post)
  {
    Step(Started(r.counter), Registry(r.workers[r.counter := prop], r.counter + 1))
  }

  /** `get`: poll the job `token` without blocking; a delivered result is handed out once
      and its record dropped. */
  function GetStep<V>(r: Registry<V>, token: nat): (s: Step<V>)
    ensures s.reply == Error(NotExist) <==> token !in r.workers
    ensures token in r.workers ==> s.reply == Receive(r.workers[token].receiver)
    ensures s.reply.Done? <==> token in r.workers && r.workers[token].receiver.Ready?
    ensures s.reply.Done? ==> s.post == r.(workers := r.workers - {token})
    ensures !s.reply.Done? ==> s.post == r
  {
    if token !in r.workers then Step(Error(NotExist), r)
    else
      var reply := Receive(r.workers[token].receiver);
      if reply.Done? then Step(reply, r.(workers := r.workers - {token}))
      else Step(reply, r)
  }

  /** `remove`: drop the job `token` whatever its state. */
  function RemoveStep<V>(r: Registry<V>, token: nat): (s: Step<V>)
    ensures s.reply == Removed <==> token in r.workers
    ensures s.reply != Removed ==> s.reply == Error(NotExist) && s.post == r
    ensures s.post.counter == r.counter && s.post.workers.Keys == r.workers.Keys - {token}
    ensures forall t :: t in s.post.workers ==> s.post.workers[t] == r.workers[t]
  {
    if token in r.workers then Step(Removed, r.(workers := r.workers - {token}))
    else Step(Error(NotExist), r)
  }

  // ---------------------------------------------------------------------------------
  // The server state object

  /** The single registry object the request handlers share. The handle counter, a
      process-wide atomic in the server, is a field here because there is exactly one
      registry and it is created before any handle is issued. */
  class ServState<V> {
    var workers: map<nat, WorkerProp<V>>
    var counter: nat
    const config: Config
    /** Handles whose worker has been sent a cancellation request. */
    ghost var cancelled: set<nat>

    function Model(): Registry<V>
      reads this
    {
      Registry(workers, counter)
    }

    ghost predicate Valid()
      reads this
    {
      && Issued(Model())
      && forall t :: t in cancelled ==> Retired(Model(), t)
    }

    constructor (config: Config)
      ensures Valid()
      ensures this.config == config
      ensures workers == map[] && counter == 0 && cancelled == {}
    {
      this.config := config;
      workers := map[];
      counter := 0;
      cancelled := {};
    }

    method Enqueue(prop: WorkerProp<V>) returns (s: PollingState<V>)
      requires Valid()
      modifies this
      ensures Valid() && cancelled == old(cancelled)
      ensures s == EnqueueStep(old(Model()), prop).reply
      ensures Model() == EnqueueStep(old(Model()), prop).post
      ensures old(counter) !in old(workers)
    {
      var token := counter;
      counter := counter + 1;
      workers := workers[token := prop];
      s := Started(token);
    }

    method Get(token: nat) returns (s: PollingState<V>)
      requires Valid()
      modifies this
      ensures Valid() && cancelled == old(cancelled)
      ensures s == GetStep(old(Model()), token).reply
      ensures Model() == GetStep(old(Model()), token).post
    {
      if token in workers {
        match workers[token].receiver
        case Ready(v) => s := Done(v);
        case Empty => s := Pending;
        case Closed => s := Error(Disconnected);
      } else {
        s := Error(NotExist);
      }
      if s.Done? {
        workers := workers - {token};
      }
    }

    method Remove(token: nat) returns (s: PollingState<V>)
      requires Valid()
      modifies this
      ensures Valid()
      ensures s == RemoveStep(old(Model()), token).reply
      ensures Model() == RemoveStep(old(Model()), token).post
      ensures cancelled == if s == Removed then old(cancelled) + {token} else old(cancelled)
    {
      if token in workers {
        workers := workers - {token};
        cancelled := cancelled + {token};
        s := Removed;
        return;
      }
      s := Error(NotExist);
    }
  }
}
