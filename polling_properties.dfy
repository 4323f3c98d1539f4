/** What the registry promises across calls: exact per-class counting, the advisory
    admission check, handles that are issued in order and never reused, and records that
    stay gone once their result was read or they were removed. */
module PollingProperties {
  import opened Polling

  // ---------------------------------------------------------------------------------
  // Counting live jobs per class

  /** Inserting a record under a fresh handle adds that handle to its own class only. */
  lemma HoldersInsert<V>(w: map<nat, WorkerProp<V>>, t: nat, p: WorkerProp<V>, c: string)
    requires t !in w
    ensures Holders(w[t := p], c) == if c == p.name then Holders(w, c) + {t} else Holders(w, c)
  {
  }

  /** Deleting a live record takes its handle out of its own class only. */
  lemma HoldersDelete<V>(w: map<nat, WorkerProp<V>>, t: nat, c: string)
    requires t in w
    ensures Holders(w - {t}, c) == if c == w[t].name then Holders(w, c) - {t} else Holders(w, c)
  {
  }

  /** Enqueuing a job of class `prop.name` raises that class's count by exactly one and
      leaves every other class's count as it was. */
  lemma EnqueueCounts<V>(r: Registry<V>, prop: WorkerProp<V>, c: string)
    requires Issued(r)
    ensures JobNum(EnqueueStep(r, prop).post.workers, c)
            == JobNum(r.workers, c) + (if c == prop.name then 1 else 0)
  {
    HoldersInsert(r.workers, r.counter, prop, c);
  }

  /** A poll that hands out a result lowers the count of that job's class by exactly one;
      every other poll, and every other class, keeps its count. */
  lemma GetCounts<V>(r: Registry<V>, token: nat, c: string)
    ensures JobNum(GetStep(r, token).post.workers, c)
            == JobNum(r.workers, c)
               - (if token in r.workers && GetStep(r, token).reply.Done? && r.workers[token].name == c
                  then 1 else 0)
  {
    if token in r.workers && GetStep(r, token).reply.Done? {
      HoldersDelete(r.workers, token, c);
    }
  }

  /** Removing a live job lowers the count of its class by exactly one; removing an
      absent handle changes no count. */
  lemma RemoveCounts<V>(r: Registry<V>, token: nat, c: string)
    ensures JobNum(RemoveStep(r, token).post.workers, c)
            == JobNum(r.workers, c) - (if token in r.workers && r.workers[token].name == c then 1 else 0)
  {
    if token in r.workers {
      HoldersDelete(r.workers, token, c);
    }
  }

  // ---------------------------------------------------------------------------------
  // Admission control

  /** The handles below `n`. */
  function Below(n: nat): set<nat>
  {
    if n == 0 then {} else Below(n - 1) + {n - 1}
  }

  lemma {:induction false} BelowSize(n: nat)
    ensures forall u: nat :: u in Below(n) <==> u < n
    ensures |Below(n)| == n
  {
    if n > 0 {
      BelowSize(n - 1);
      forall u: nat ensures u in Below(n) <==> u < n {
        assert u in Below(n) <==> u in Below(n - 1) || u == n - 1;
      }
    }
  }

  /** There are never more live jobs than handles issued. */
  lemma LiveAtMostIssued<V>(r: Registry<V>)
    requires Issued(r)
    ensures |r.workers| <= r.counter
  {
    BelowSize(r.counter);
    SubsetSize(r.workers.Keys, Below(r.counter));
  }

  /** A class without a configured limit is always admitted, as long as the counter has not
      reached the largest `u64`. */
  lemma UnconfiguredAlwaysAvailable<V>(config: Config, r: Registry<V>, c: string)
    requires Issued(r) && r.counter < U64_MAX
    requires c !in config.jobLimits
    ensures JobAvailable(config, r.workers, c)
  {
    LiveAtMostIssued(r);
  }

  /** Once a job of a class leaves the registry, whether by a poll that read its result or by
      removal, the class admits a new job exactly when its remaining count is below its limit;
      so a class filled exactly to its limit opens up again. */
  lemma ReleaseReopens<V>(config: Config, r: Registry<V>, token: nat)
    requires token in r.workers
    ensures var c := r.workers[token].name;
            JobAvailable(config, RemoveStep(r, token).post.workers, c)
            <==> JobNum(r.workers, c) <= JobLimit(config, c)
    ensures var c := r.workers[token].name;
            r.workers[token].receiver.Ready? ==>
              (JobAvailable(config, GetStep(r, token).post.workers, c)
               <==> JobNum(r.workers, c) <= JobLimit(config, c))
  {
    var c := r.workers[token].name;
    RemoveCounts(r, token, c);
    GetCounts(r, token, c);
  }

  /** `enqueue` does not consult the admission check: it starts a job even when the class is
      full, and the class then holds more jobs than its limit. */
  lemma EnqueueIgnoresLimit<V>(config: Config, r: Registry<V>, prop: WorkerProp<V>)
    requires Issued(r)
    requires !JobAvailable(config, r.workers, prop.name)
    ensures EnqueueStep(r, prop).reply == Started(r.counter)
    ensures JobNum(EnqueueStep(r, prop).post.workers, prop.name) > JobLimit(config, prop.name)
  {
    EnqueueCounts(r, prop, prop.name);
  }

  /** With a limit of 2 on class "seal", two started "seal" jobs close the class, and either
      removing the first or reading the second's result opens it again. */
  lemma SealScenario<V>(a: WorkerProp<V>, b: WorkerProp<V>, v: V)
    requires a.name == "seal" && b.name == "seal" && b.receiver == Ready(v)
    ensures var config := Config(map["seal" := 2], []);
            var r2 := EnqueueStep(EnqueueStep(Registry(map[], 0), a).post, b).post;
            && !JobAvailable(config, r2.workers, "seal")
            && JobAvailable(config, RemoveStep(r2, 0).post.workers, "seal")
            && GetStep(r2, 1).reply == Done(v)
            && JobAvailable(config, GetStep(r2, 1).post.workers, "seal")
  {
    var config := Config(map["seal" := 2], []);
    var r0: Registry<V> := Registry(map[], 0);
    var r1 := EnqueueStep(r0, a).post;
    var r2 := EnqueueStep(r1, b).post;
    EnqueueCounts(r0, a, "seal");
    EnqueueCounts(r1, b, "seal");
    assert JobNum(r2.workers, "seal") == 2;
    ReleaseReopens(config, r2, 0);
    ReleaseReopens(config, r2, 1);
  }

  // ---------------------------------------------------------------------------------
  // Sequences of calls

  /** Everything that can happen to the registry: a call from a request handler, or a
      worker sending its result (`Send`) or ending without one (`Hangup`). */
  datatype Event<V> =
    | Enqueue(prop: WorkerProp<V>)
    | Get(token: nat)
    | Remove(token: nat)
    | Send(token: nat, value: V)
    | Hangup(token: nat)

  /** A worker still running delivers its single result; nothing changes for a worker that
      already delivered, already ended, or whose record is gone. */
  function Deliver<V>(r: Registry<V>, t: nat, v: V): Registry<V>
  {
    if t in r.workers && r.workers[t].receiver.Empty?
    then r.(workers := r.workers[t := r.workers[t].(receiver := Ready(v))])
    else r
  }

  /** A worker still running ends without a result, so its channel closes. */
  function HangUp<V>(r: Registry<V>, t: nat): Registry<V>
  {
    if t in r.workers && r.workers[t].receiver.Empty?
    then r.(workers := r.workers[t := r.workers[t].(receiver := Closed)])
    else r
  }

  function After<V>(r: Registry<V>, e: Event<V>): Registry<V>
  {
    match e
    case Enqueue(p) => EnqueueStep(r, p).post
    case Get(t) => GetStep(r, t).post
    case Remove(t) => RemoveStep(r, t).post
    case Send(t, v) => Deliver(r, t, v)
    case Hangup(t) => HangUp(r, t)
  }

  function Run<V>(r: Registry<V>, events: seq<Event<V>>): Registry<V>
    decreases |events|
  {
    if events == [] then r else Run(After(r, events[0]), events[1..])
  }

  /** The handles the `Enqueue` events of `events` receive, in order. */
  function Handles<V>(r: Registry<V>, events: seq<Event<V>>): seq<nat>
    decreases |events|
  {
    if events == [] then []
    else (if events[0].Enqueue? then [r.counter] else []) + Handles(After(r, events[0]), events[1..])
  }

  /** Over any sequence of events the handles issued are exactly the next counter values,
      one per `enqueue` with no gap, so they are strictly increasing and all distinct. */
  lemma {:induction false} HandlesAreConsecutive<V>(r: Registry<V>, events: seq<Event<V>>)
    ensures r.counter <= Run(r, events).counter
    ensures |Handles(r, events)| == Run(r, events).counter - r.counter
    ensures forall i :: 0 <= i < |Handles(r, events)| ==> Handles(r, events)[i] == r.counter + i
    decreases |events|
  {
    if events != [] {
      var next := After(r, events[0]);
      HandlesAreConsecutive(next, events[1..]);
      assert next.counter == r.counter + (if events[0].Enqueue? then 1 else 0);
    }
  }

  /** Handles are issued in strictly increasing order, and none of them names a job that
      was live before the sequence started. */
  lemma HandlesIncrease<V>(r: Registry<V>, events: seq<Event<V>>)
    requires Issued(r)
    ensures forall i, j :: 0 <= i < j < |Handles(r, events)| ==> Handles(r, events)[i] < Handles(r, events)[j]
    ensures forall i :: 0 <= i < |Handles(r, events)| ==> Handles(r, events)[i] !in r.workers
  {
    HandlesAreConsecutive(r, events);
  }

  /** No event brings back a retired handle, and every event keeps records on issued handles. */
  lemma AfterKeeps<V>(r: Registry<V>, e: Event<V>, t: nat)
    requires Issued(r)
    ensures Issued(After(r, e))
    ensures Retired(r, t) ==> Retired(After(r, e), t)
  {
  }

  lemma {:induction false} RunKeeps<V>(r: Registry<V>, events: seq<Event<V>>, t: nat)
    requires Issued(r)
    ensures Issued(Run(r, events))
    ensures Retired(r, t) ==> Retired(Run(r, events), t)
    decreases |events|
  {
    if events != [] {
      AfterKeeps(r, events[0], t);
      RunKeeps(After(r, events[0]), events[1..], t);
    }
  }

  /** A result is handed out once: after a poll returned `Done`, whatever happens next, a
      poll or a removal of that handle finds nothing. */
  lemma DoneSeenOnce<V>(r: Registry<V>, token: nat, events: seq<Event<V>>)
    requires Issued(r)
    requires GetStep(r, token).reply.Done?
    ensures var later := Run(GetStep(r, token).post, events);
            && GetStep(later, token) == Step(Error(NotExist), later)
            && RemoveStep(later, token) == Step(Error(NotExist), later)
  {
    RunKeeps(GetStep(r, token).post, events, token);
  }

  /** Removal is final: after a removal returned `Removed`, whatever happens next, a poll or
      a removal of that handle finds nothing. */
  lemma RemovalIsFinal<V>(r: Registry<V>, token: nat, events: seq<Event<V>>)
    requires Issued(r)
    requires RemoveStep(r, token).reply == Removed
    ensures var later := Run(RemoveStep(r, token).post, events);
            && GetStep(later, token) == Step(Error(NotExist), later)
            && RemoveStep(later, token) == Step(Error(NotExist), later)
  {
    RunKeeps(RemoveStep(r, token).post, events, token);
  }

  /** A handle not issued yet is unknown to both poll and removal, which change nothing. */
  lemma UnissuedIsAbsent<V>(r: Registry<V>, token: nat)
    requires Issued(r) && r.counter <= token
    ensures GetStep(r, token) == Step(Error(NotExist), r)
    ensures RemoveStep(r, token) == Step(Error(NotExist), r)
  {
  }

  /** A poll that does not return a result leaves the registry as it was; so a poll that
      found the channel closed finds it closed again, until the job is removed. */
  lemma PollWithoutResultKeeps<V>(r: Registry<V>, token: nat)
    requires !GetStep(r, token).reply.Done?
    ensures GetStep(r, token).post == r
    ensures GetStep(r, token).reply == Error(Disconnected)
            ==> GetStep(GetStep(r, token).post, token).reply == Error(Disconnected)
  {
  }

  /** A job found disconnected keeps answering `Error(Disconnected)`, and the poll keeps
      changing nothing, whatever other calls and worker events follow, until it is removed. */
  lemma {:induction false} DisconnectedPersists<V>(r: Registry<V>, t: nat, events: seq<Event<V>>)
    requires Issued(r)
    requires GetStep(r, t).reply == Error(Disconnected)
    requires forall i :: 0 <= i < |events| ==> !(events[i].Remove? && events[i].token == t)
    ensures GetStep(Run(r, events), t) == Step(Error(Disconnected), Run(r, events))
    decreases |events|
  {
    if events != [] {
      AfterKeeps(r, events[0], t);
      DisconnectedPersists(After(r, events[0]), t, events[1..]);
    }
  }

  /** A job whose worker sends `v` some time later: polled at once it is `Pending`, polled
      after the value was sent it is `Done(v)`, and polled once more it no longer exists. */
  lemma PollingScenario<V>(v: V)
    ensures var r1 := EnqueueStep(Registry(map[], 0), WorkerProp("Test", Empty)).post;
            var p1 := GetStep(r1, 0);
            var p2 := GetStep(Deliver(p1.post, 0, v), 0);
            var p3 := GetStep(p2.post, 0);
            p1.reply == Pending && p2.reply == Done(v) && p3.reply == Error(NotExist)
  {
  }
}
