/**
 * `ActionRegistry`: the request/response bridge over the broker. A job added
 * with `addJob` runs in the background; a job added with `callJob` has a
 * caller waiting on it, whose promise is settled by the job's completion,
 * its failure, or a timeout. The pending table is keyed by job id alone, as
 * in the source.
 *
 * Promises are modelled by the log of settlements (`outcomes`); a timer by
 * the time it fires; the broker by the abstract `Broker` value.
 */
module Registries {
  import opened Wrappers
  import opened JsValues
  import opened Json
  import opened AppErrors
  import opened Brokers
  import opened Queues

  datatype PendingKind = BackgroundJob | ActionCall

  /** `PendingJob`; its logger, resolver and rejecter are not values here. */
  datatype PendingJob = PendingJob(kind: PendingKind, action: string, data: Js)

  /** A caller waiting in `callJob`, known by its action and its job's id. */
  datatype Call = Call(action: string, id: nat)

  /** One settlement of a caller's promise. */
  datatype Outcome = Resolved(call: Call, value: Js) | Rejected(call: Call, error: AppError)

  /** Why `addJob` or `callJob` throws. */
  datatype RegistryError =
    | QueueConnectionError(action: string)   // `addJob` wraps the broker's error
    | AddFailed(action: string)              // `callJob` lets the broker's error through

  /** `#defaultExecuteTimeout`, in milliseconds. */
  const DefaultExecuteTimeout: int := 30000

  /** The options of the timeout error. */
  function TimeoutOptions(action: string, id: nat): Js {
    Obj([("type", Str(TypeName(Internal))), ("message", Str("Timeout exceeded for job " + NatString(id))), ("action", Str(action))])
  }

  /** The error a timed-out caller is rejected with: INTERNAL with its code, naming the job, for the action. */
  function TimeoutError(action: string, id: nat): AppError {
    AppError(Str(TypeName(Internal)), Str("Timeout exceeded for job " + NatString(id)), Str(action), Obj([]), Num(TypeCode(Internal)))
  }

  /** The properties the constructor reads from the options: type, message and action as given; no data, no code. */
  lemma {:induction false} TimeoutOptionsGets(action: string, id: nat)
    ensures var opts := TimeoutOptions(action, id);
      Get(opts, "type") == Str(TypeName(Internal)) && Get(opts, "message") == Str("Timeout exceeded for job " + NatString(id)) &&
      Get(opts, "action") == Str(action) && Get(opts, "data") == Undefined && Get(opts, "code") == Undefined
  {
    var t, m, a := ("type", Str(TypeName(Internal))), ("message", Str("Timeout exceeded for job " + NatString(id))), ("action", Str(action));
    assert TimeoutOptions(action, id).fields == [t] + ([m] + [a]);
    assert "type"[0] != "message"[0] && "type"[0] != "action"[0] && "type"[0] != "data"[0] && "type"[0] != "code"[0];
    assert "message"[0] != "action"[0] && "message"[0] != "data"[0] && "message"[0] != "code"[0];
    assert "action"[0] != "data"[0] && "action"[0] != "code"[0];
    LookupCons(t, [m] + [a], "message");
    LookupCons(t, [m] + [a], "action");
    LookupCons(t, [m] + [a], "data");
    LookupCons(t, [m] + [a], "code");
    LookupCons(m, [a], "action");
    LookupCons(m, [a], "data");
    LookupCons(m, [a], "code");
    LookupCons(a, [], "data");
    LookupCons(a, [], "code");
  }

  /** `new AppError({type: "INTERNAL", message, action})` builds exactly `TimeoutError`: code from the table, data `{}`. */
  lemma {:induction false} TimeoutErrorSpec(action: string, id: nat)
    ensures NewAppError(TimeoutOptions(action, id)) == Some(TimeoutError(action, id))
  {
    TimeoutOptionsGets(action, id);
    TypedOptions(TimeoutOptions(action, id), Internal);
  }

  /** The value a completed caller gets: `JSON.parse(returnvalue)`, or the raw string when that throws. */
  function Completion(returnvalue: string): (v: Js) {
    match Parse(returnvalue)
    case Some(x) => x
    case None => Str(returnvalue)
  }

  /** A return value written by `JSON.stringify` comes back as the value itself; any other text comes back as itself. */
  lemma {:induction false} CompletionSpec(v: Js, s: string)
    requires Plain(v)
    ensures Stringify(v).Some? && Completion(Stringify(v).value) == v
    ensures Parse(s).None? ==> Completion(s) == Str(s)
  {
    ParseStringify(v);
  }

  /** `#createErrorFromFailedJob(reason, pending)`: the reason rebuilt as an error, carrying the job's data. */
  function FailureError(reason: string, p: PendingJob): AppError {
    FromActionFailReason(reason).(data := p.data)
  }

  /**
   * A reason that is a usable error envelope keeps its type and message;
   * any other reason becomes an INTERNAL error whose message is the reason.
   * Either way the data is the job's.
   */
  lemma {:induction false} FailureErrorSpec(reason: string, p: PendingJob)
    ensures FailureError(reason, p).data == p.data
    ensures Parse(reason).Some? && NewAppError(Parse(reason).value).Some? ==>
      FailureError(reason, p).typ == NewAppError(Parse(reason).value).value.typ &&
      FailureError(reason, p).message == Get(Parse(reason).value, "message")
    ensures Parse(reason).None? ==>
      FailureError(reason, p).typ == Str("INTERNAL") && FailureError(reason, p).message == Str(reason)
  {
  }

  /** Adding to one queue leaves every other queue's next job id as it was: ids are counted per queue. */
  lemma {:induction false} IdsPerQueue(b: Broker, q: string, p: string, name: string, data: Js, opts: JobOpts, name': string, data': Js, opts': JobOpts)
    requires p != q
    ensures Add(Add(b, q, name, data, opts).0, p, name', data', opts').1 == Add(b, p, name', data', opts').1
  {
  }

  /**
   * The registry's bookkeeping: the broker is valid; every pending action
   * call has its caller's timer armed; an armed caller's job id was handed
   * out by its queue, and the caller has not been settled; a settled
   * caller's job id was handed out too; and no caller is settled twice.
   */
  ghost predicate Consistent(b: Broker, pending: map<nat, PendingJob>, timers: map<Call, int>, outcomes: seq<Outcome>) {
    Brokers.Valid(b) &&
    (forall id :: id in pending && pending[id].kind == ActionCall ==> Call(pending[id].action, id) in timers) &&
    (forall c :: c in timers ==> 1 <= c.id <= LastId(b, c.action)) &&
    (forall i :: 0 <= i < |outcomes| ==> outcomes[i].call !in timers && outcomes[i].call.id <= LastId(b, outcomes[i].call.action)) &&
    (forall i, j :: 0 <= i < j < |outcomes| ==> outcomes[i].call != outcomes[j].call)
  }

  /**
   * Adding a job to queue `q` hands out an id that no armed or settled
   * caller of `q` holds, and every id handed out before stays in range.
   */
  lemma {:induction false} AddFreshCall(b: Broker, pending: map<nat, PendingJob>, timers: map<Call, int>, outcomes: seq<Outcome>,
                     q: string, data: Js, opts: JobOpts)
    requires Consistent(b, pending, timers, outcomes)
    ensures var (b', id) := Add(b, q, q, data, opts);
      Call(q, id) !in timers && (forall i :: 0 <= i < |outcomes| ==> outcomes[i].call != Call(q, id)) &&
      (forall k :: k in timers ==> 1 <= k.id <= LastId(b', k.action)) &&
      (forall i :: 0 <= i < |outcomes| ==> outcomes[i].call.id <= LastId(b', outcomes[i].call.action))
  {
    var (b', id) := Add(b, q, q, data, opts);
    forall k | k in timers
      ensures 1 <= k.id <= LastId(b', k.action)
    {
    }
    forall i | 0 <= i < |outcomes|
      ensures outcomes[i].call != Call(q, id) && outcomes[i].call.id <= LastId(b', outcomes[i].call.action)
    {
    }
  }

  /** Recording a new job as a background job keeps the bookkeeping. */
  lemma {:induction false} AddJobKeeps(b: Broker, pending: map<nat, PendingJob>, timers: map<Call, int>, outcomes: seq<Outcome>,
                    q: string, data: Js, opts: JobOpts)
    requires Consistent(b, pending, timers, outcomes)
    ensures var (b', id) := Add(b, q, q, data, opts);
      Consistent(b', pending[id := PendingJob(BackgroundJob, q, data)], timers, outcomes)
  {
    AddFreshCall(b, pending, timers, outcomes, q, data, opts);
  }

  /** Recording a new job as an action call, with its caller's timer armed, keeps the bookkeeping. */
  lemma {:induction false} CallJobKeeps(b: Broker, pending: map<nat, PendingJob>, timers: map<Call, int>, outcomes: seq<Outcome>,
                     q: string, data: Js, opts: JobOpts, deadline: int)
    requires Consistent(b, pending, timers, outcomes)
    ensures var (b', id) := Add(b, q, q, data, opts);
      Consistent(b', pending[id := PendingJob(ActionCall, q, data)], timers[Call(q, id) := deadline], outcomes)
  {
    AddFreshCall(b, pending, timers, outcomes, q, data, opts);
  }

  /**
   * Settling an armed caller, which disarms its timer and drops the entry
   * under its job id, keeps the bookkeeping, even when the broker loses
   * jobs, as long as it keeps its id counters.
   */
  lemma {:induction false} SettleKeeps(b: Broker, b': Broker, pending: map<nat, PendingJob>, timers: map<Call, int>, outcomes: seq<Outcome>,
                    c: Call, out: Outcome)
    requires Consistent(b, pending, timers, outcomes)
    requires c in timers && out.call == c
    requires Brokers.Valid(b') && b'.lastId == b.lastId
    ensures Consistent(b', pending - {c.id}, timers - {c}, outcomes + [out])
  {
    var o' := outcomes + [out];
    forall i, j | 0 <= i < j < |o'|
      ensures o'[i].call != o'[j].call
    {
      if j == |outcomes| {
        assert o'[i].call !in timers;
      }
    }
  }

  /** Dropping a background job's entry keeps the bookkeeping. */
  lemma {:induction false} DropBackgroundKeeps(b: Broker, pending: map<nat, PendingJob>, timers: map<Call, int>, outcomes: seq<Outcome>, id: nat)
    requires Consistent(b, pending, timers, outcomes)
    requires id in pending && pending[id].kind == BackgroundJob
    ensures Consistent(b, pending - {id}, timers, outcomes)
  {
  }

  class ActionRegistry {
    var queues: map<string, Handle>
    var workers: map<string, Handle>
    var queueEvents: map<string, Handle>
    /** `pendingJobs`, keyed by job id. */
    var pendingJobs: map<nat, PendingJob>
    /** The armed timeouts: each waiting caller and the time its timer fires. */
    var timers: map<Call, int>
    /** Every settlement of a caller's promise so far, in order. */
    var outcomes: seq<Outcome>
    var broker: Broker
    var nextHandle: Handle

    /** The bookkeeping invariant, `Consistent`, over this registry's state. */
    ghost predicate Valid()
      reads this
    {
      Consistent(broker, pendingJobs, timers, outcomes)
    }

    /** A registry over an existing broker: no queues, nothing pending, nothing settled. */
    constructor(broker: Broker)
      requires Brokers.Valid(broker)
      ensures Valid() && this.broker == broker
      ensures queues == map[] && workers == map[] && queueEvents == map[]
      ensures pendingJobs == map[] && timers == map[] && outcomes == []
    {
      this.broker := broker;
      queues, workers, queueEvents := map[], map[], map[];
      pendingJobs, timers, outcomes := map[], map[], [];
      nextHandle := 0;
    }

    /** `registerQueue(action, queue)` */
    method RegisterQueue(action: string, queue: Handle)
      modifies this
      ensures queues == old(queues)[action := queue]
      ensures workers == old(workers) && queueEvents == old(queueEvents) && pendingJobs == old(pendingJobs)
      ensures timers == old(timers) && outcomes == old(outcomes) && broker == old(broker) && nextHandle == old(nextHandle)
    {
      queues := queues[action := queue];
    }

    /** `registerWorker(action, worker)` */
    method RegisterWorker(action: string, worker: Handle)
      modifies this
      ensures workers == old(workers)[action := worker]
      ensures queues == old(queues) && queueEvents == old(queueEvents) && pendingJobs == old(pendingJobs)
      ensures timers == old(timers) && outcomes == old(outcomes) && broker == old(broker) && nextHandle == old(nextHandle)
    {
      workers := workers[action := worker];
    }

    /** `getQueue(action)` */
    function GetQueue(action: string): (r: Option<Handle>)
      reads this
      ensures r.Some? <==> action in queues
      ensures r.Some? ==> r.value == queues[action]
    {
      if action in queues then Some(queues[action]) else None
    }

    /** `getWorker(action)` */
    function GetWorker(action: string): (r: Option<Handle>)
      reads this
      ensures r.Some? <==> action in workers
      ensures r.Some? ==> r.value == workers[action]
    {
      if action in workers then Some(workers[action]) else None
    }

    /** `#getOrCreateQueue(action)` */
    method GetOrCreateQueue(action: string) returns (q: Handle)
      modifies this
      ensures (q, queues) == Memo(old(queues), action, old(nextHandle))
      ensures workers == old(workers) && queueEvents == old(queueEvents) && pendingJobs == old(pendingJobs)
      ensures timers == old(timers) && outcomes == old(outcomes) && broker == old(broker)
      ensures nextHandle == if action in old(queues) then old(nextHandle) else old(nextHandle) + 1
    {
      if action in queues {
        return queues[action];
      }
      q := nextHandle;
      nextHandle := nextHandle + 1;
      RegisterQueue(action, q);
    }

    /** `#getOrCreateQueueEvents(action)`: the stream whose completed and failed events reach the handlers below. */
    method GetOrCreateQueueEvents(action: string) returns (e: Handle)
      modifies this
      ensures (e, queueEvents) == Memo(old(queueEvents), action, old(nextHandle))
      ensures queues == old(queues) && workers == old(workers) && pendingJobs == old(pendingJobs)
      ensures timers == old(timers) && outcomes == old(outcomes) && broker == old(broker)
      ensures nextHandle == if action in old(queueEvents) then old(nextHandle) else old(nextHandle) + 1
    {
      if action in queueEvents {
        return queueEvents[action];
      }
      e := nextHandle;
      nextHandle := nextHandle + 1;
      queueEvents := queueEvents[action := e];
    }

    /**
     * `addJob(action, data)`: the job is added to the action's queue and
     * recorded as a background job under its id. When the broker refuses
     * (`brokerUp` false) the queue has still been created and the error is
     * a `QueueConnectionError` for the action.
     */
    method AddJob(action: string, data: Js, brokerUp: bool) returns (r: Result<nat, RegistryError>)
      requires Valid()
      modifies this
      ensures Valid()
      ensures queues == Memo(old(queues), action, old(nextHandle)).1
      ensures !brokerUp ==>
        r == Err(QueueConnectionError(action)) && pendingJobs == old(pendingJobs) && broker == old(broker)
      ensures brokerUp ==>
        r.Ok? && (broker, r.value) == Add(old(broker), action, action, data, NoOpts) &&
        pendingJobs == old(pendingJobs)[r.value := PendingJob(BackgroundJob, action, data)]
      ensures timers == old(timers) && outcomes == old(outcomes)
      ensures workers == old(workers) && queueEvents == old(queueEvents)
    {
      var queue := GetOrCreateQueue(action);
      if !brokerUp {
        return Err(QueueConnectionError(action));
      }
      var b', id := Add(broker, action, action, data, NoOpts).0, Add(broker, action, action, data, NoOpts).1;
      AddJobKeeps(broker, pendingJobs, timers, outcomes, action, data, NoOpts);
      broker := b';
      pendingJobs := pendingJobs[id := PendingJob(BackgroundJob, action, data)];
      r := Ok(id);
    }

    /**
     * `callJob(action, data)` at time `now`: the queue and its event stream
     * exist afterwards; the job is added with `removeOnComplete` and
     * priority 0, recorded as an action call under its id, and its caller's
     * timer is armed to fire `DefaultExecuteTimeout` later. The caller is
     * a new one: never armed or settled before.
     */
    method CallJob(action: string, data: Js, brokerUp: bool, now: int) returns (r: Result<Call, RegistryError>)
      requires Valid()
      modifies this
      ensures Valid()
      ensures queues == Memo(old(queues), action, old(nextHandle)).1
      ensures queueEvents.Keys == old(queueEvents).Keys + {action}
      ensures queueEvents ==
        Memo(old(queueEvents), action, if action in old(queues) then old(nextHandle) else old(nextHandle) + 1).1
      ensures !brokerUp ==>
        r == Err(AddFailed(action)) && pendingJobs == old(pendingJobs) && broker == old(broker) && timers == old(timers)
      ensures brokerUp ==>
        r.Ok? && r.value.action == action &&
        (broker, r.value.id) == Add(old(broker), action, action, data, NoOpts.(removeOnComplete := true, priority := Some(0))) &&
        pendingJobs == old(pendingJobs)[r.value.id := PendingJob(ActionCall, action, data)] &&
        r.value !in old(timers) && (forall i :: 0 <= i < |outcomes| ==> outcomes[i].call != r.value) &&
        timers == old(timers)[r.value := now + DefaultExecuteTimeout]
      ensures outcomes == old(outcomes) && workers == old(workers)
    {
      var queue := GetOrCreateQueue(action);
      ghost var e0, h0 := queueEvents, nextHandle;
      var events := GetOrCreateQueueEvents(action);
      MemoOnlyAdds(e0, action, h0);
      if !brokerUp {
        return Err(AddFailed(action));
      }
      var opts := NoOpts.(removeOnComplete := true, priority := Some(0));
      var b', id := Add(broker, action, action, data, opts).0, Add(broker, action, action, data, opts).1;
      var call := Call(action, id);
      AddFreshCall(broker, pendingJobs, timers, outcomes, action, data, opts);
      CallJobKeeps(broker, pendingJobs, timers, outcomes, action, data, opts, now + DefaultExecuteTimeout);
      broker := b';
      timers := timers[call := now + DefaultExecuteTimeout];
      pendingJobs := pendingJobs[id := PendingJob(ActionCall, action, data)];
      r := Ok(call);
    }

    /**
     * The timer of caller `c` fires at `now`: the entry under its job id is
     * deleted, its job removed from the broker when no worker holds it, and
     * the caller rejected with the timeout error.
     */
    method FireTimeout(c: Call, now: int)
      requires Valid()
      requires c in timers && now >= timers[c]
      modifies this
      ensures Valid()
      ensures pendingJobs == old(pendingJobs) - {c.id}
      ensures broker == Remove(old(broker), c.action, c.id)
      ensures timers == old(timers) - {c}
      ensures outcomes == old(outcomes) + [Rejected(c, TimeoutError(c.action, c.id))]
      ensures queues == old(queues) && workers == old(workers) && queueEvents == old(queueEvents)
    {
      var b' := Remove(broker, c.action, c.id);
      var out := Rejected(c, TimeoutError(c.action, c.id));
      RemoveValid(broker, c.action, c.id);
      SettleKeeps(broker, b', pendingJobs, timers, outcomes, c, out);
      pendingJobs, broker, timers, outcomes := pendingJobs - {c.id}, b', timers - {c}, outcomes + [out];
    }

    /**
     * `#handleJobCompleted({jobId, returnvalue})`: an unknown id changes
     * nothing. Otherwise the entry is deleted, and when it is an action call
     * its timer is cleared and its caller resolved with `Completion`.
     */
    method HandleCompleted(jobId: nat, returnvalue: string)
      requires Valid()
      modifies this
      ensures Valid()
      ensures jobId !in old(pendingJobs) ==>
        pendingJobs == old(pendingJobs) && timers == old(timers) && outcomes == old(outcomes)
      ensures jobId in old(pendingJobs) ==> pendingJobs == old(pendingJobs) - {jobId}
      ensures jobId in old(pendingJobs) && old(pendingJobs)[jobId].kind == ActionCall ==>
        var c := Call(old(pendingJobs)[jobId].action, jobId);
        c in old(timers) && timers == old(timers) - {c} &&
        outcomes == old(outcomes) + [Resolved(c, Completion(returnvalue))]
      ensures jobId in old(pendingJobs) && old(pendingJobs)[jobId].kind == BackgroundJob ==>
        timers == old(timers) && outcomes == old(outcomes)
      ensures queues == old(queues) && workers == old(workers) && queueEvents == old(queueEvents)
      ensures broker == old(broker)
    {
      if jobId !in pendingJobs {
        return;
      }
      var pending := pendingJobs[jobId];
      if pending.kind == BackgroundJob {
        DropBackgroundKeeps(broker, pendingJobs, timers, outcomes, jobId);
      }
      if pending.kind == ActionCall {
        var c := Call(pending.action, jobId);
        SettleKeeps(broker, broker, pendingJobs, timers, outcomes, c, Resolved(c, Completion(returnvalue)));
        timers := timers - {c};
        outcomes := outcomes + [Resolved(c, Completion(returnvalue))];
      }
      pendingJobs := pendingJobs - {jobId};
    }

    /**
     * `#handleJobFailed({jobId, failedReason})`: an unknown id changes
     * nothing. Otherwise the entry is deleted (an action call's timer
     * cleared), and only an action call's caller is rejected, with
     * `FailureError`.
     */
    method HandleFailed(jobId: nat, failedReason: string)
      requires Valid()
      modifies this
      ensures Valid()
      ensures jobId !in old(pendingJobs) ==>
        pendingJobs == old(pendingJobs) && timers == old(timers) && outcomes == old(outcomes)
      ensures jobId in old(pendingJobs) ==> pendingJobs == old(pendingJobs) - {jobId}
      ensures jobId in old(pendingJobs) && old(pendingJobs)[jobId].kind == ActionCall ==>
        var c := Call(old(pendingJobs)[jobId].action, jobId);
        c in old(timers) && timers == old(timers) - {c} &&
        outcomes == old(outcomes) + [Rejected(c, FailureError(failedReason, old(pendingJobs)[jobId]))]
      ensures jobId in old(pendingJobs) && old(pendingJobs)[jobId].kind == BackgroundJob ==>
        timers == old(timers) && outcomes == old(outcomes)
      ensures queues == old(queues) && workers == old(workers) && queueEvents == old(queueEvents)
      ensures broker == old(broker)
    {
      if jobId !in pendingJobs {
        return;
      }
      var pending := pendingJobs[jobId];
      var c := Call(pending.action, jobId);
      var error := FailureError(failedReason, pending);
      if pending.kind == ActionCall {
        SettleKeeps(broker, broker, pendingJobs, timers, outcomes, c, Rejected(c, error));
        timers := timers - {c};
      } else {
        DropBackgroundKeeps(broker, pendingJobs, timers, outcomes, jobId);
      }
      pendingJobs := pendingJobs - {jobId};
      if pending.kind == ActionCall {
        outcomes := outcomes + [Rejected(c, error)];
      }
    }

    /**
     * `cleanup()`: every queue, worker and event stream is closed, failures
     * ignored, and the three maps end empty; pending jobs and their timers
     * stay.
     */
    method Cleanup()
      requires Valid()
      modifies this
      ensures Valid()
      ensures queues == map[] && workers == map[] && queueEvents == map[]
      ensures pendingJobs == old(pendingJobs) && timers == old(timers) && outcomes == old(outcomes)
      ensures broker == old(broker)
    {
      queues, workers, queueEvents := map[], map[], map[];
    }
  }
}
