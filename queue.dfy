/**
 * `Queue`: the process's view of the message broker. It memoizes one queue,
 * one worker and one event stream per name; the objects themselves are
 * known only by identity (a handle), and the broker's jobs are the abstract
 * `Broker` value.
 */
module Queues {
  import opened Wrappers
  import opened JsValues
  import opened ActionModules
  import opened Brokers

  /** A queue, worker or event-stream object, known by identity. */
  type Handle = nat

  /** A worker: its object, the function it runs, and the concurrency it was created with. */
  datatype Worker = Worker(handle: Handle, fn: Option<Handler>, concurrency: Option<int>)

  /**
   * Get-or-create on a name-keyed memo: the remembered value if the name has
   * one, otherwise `created`, which is then remembered.
   */
  function Memo<V>(m: map<string, V>, name: string, created: V): (V, map<string, V>) {
    if name in m then (m[name], m) else (created, m[name := created])
  }

  /** Asking again for the same name returns the same value and changes nothing, whatever is offered. */
  lemma {:induction false} MemoIdempotent<V>(m: map<string, V>, name: string, created: V, other: V)
    ensures var (v, m') := Memo(m, name, created);
      Memo(m', name, other) == (v, m')
  {
  }

  /** The memo gains at most the requested name and never changes a remembered value. */
  lemma {:induction false} MemoOnlyAdds<V>(m: map<string, V>, name: string, created: V)
    ensures var (v, m') := Memo(m, name, created);
      m'.Keys == m.Keys + {name} && m'[name] == v &&
      (forall k :: k in m ==> m'[k] == m[k]) &&
      (name !in m ==> v == created)
  {
  }

  class Queue {
    /** `redisConn` is set (truthy). */
    const redisConn: bool
    var queues: map<string, Handle>
    var workers: map<string, Worker>
    var events: map<string, Handle>
    /** The broker's jobs, shared with every other process. */
    var broker: Broker
    /** The next object identity to hand out. */
    var nextHandle: Handle

    /** Every object the memos hold was created before `nextHandle`. */
    ghost predicate Valid()
      reads this
    {
      (forall n :: n in queues ==> queues[n] < nextHandle) &&
      (forall n :: n in workers ==> workers[n].handle < nextHandle) &&
      (forall n :: n in events ==> events[n] < nextHandle)
    }

    /** `new Queue(redisConn)` over an existing broker: nothing memoized yet. */
    constructor(redisConn: bool, broker: Broker)
      ensures this.redisConn == redisConn && this.broker == broker
      ensures queues == map[] && workers == map[] && events == map[]
      ensures Valid()
    {
      this.redisConn := redisConn;
      this.broker := broker;
      queues := map[];
      workers := map[];
      events := map[];
      nextHandle := 0;
    }

    /** `getOrCreateQ(name)`: one queue object per name; a new one only when the name has none. */
    method GetOrCreateQ(name: string) returns (q: Handle)
      requires Valid()
      modifies this
      ensures Valid()
      ensures (q, queues) == Memo(old(queues), name, old(nextHandle))
      ensures name !in old(queues) ==> q !in old(queues).Values && nextHandle == old(nextHandle) + 1
      ensures name in old(queues) ==> nextHandle == old(nextHandle)
      ensures workers == old(workers) && events == old(events) && broker == old(broker)
    {
      if name in queues {
        return queues[name];
      }
      q := nextHandle;
      queues := queues[name := q];
      nextHandle := nextHandle + 1;
    }

    /**
     * `getOrCreateWorker(name, fn, settings)`: one worker per name; a worker
     * that exists is returned as it is, so the function and the concurrency
     * offered on a later call are ignored.
     */
    method GetOrCreateWorker(name: string, fn: Option<Handler>, concurrency: Option<int>) returns (w: Worker)
      requires Valid()
      modifies this
      ensures Valid()
      ensures (w, workers) == Memo(old(workers), name, Worker(old(nextHandle), fn, concurrency))
      ensures name in old(workers) ==> nextHandle == old(nextHandle)
      ensures name !in old(workers) ==> nextHandle == old(nextHandle) + 1
      ensures queues == old(queues) && events == old(events) && broker == old(broker)
    {
      if name in workers {
        return workers[name];
      }
      w := Worker(nextHandle, fn, concurrency);
      workers := workers[name := w];
      nextHandle := nextHandle + 1;
    }

    /** `getOrCreateQEvents(name)`: one event stream per name. */
    method GetOrCreateQEvents(name: string) returns (e: Handle)
      requires Valid()
      modifies this
      ensures Valid()
      ensures (e, events) == Memo(old(events), name, old(nextHandle))
      ensures name !in old(events) ==> e !in old(events).Values && nextHandle == old(nextHandle) + 1
      ensures name in old(events) ==> nextHandle == old(nextHandle)
      ensures queues == old(queues) && workers == old(workers) && broker == old(broker)
    {
      if name in events {
        return events[name];
      }
      e := nextHandle;
      events := events[name := e];
      nextHandle := nextHandle + 1;
    }

    /** `scheduleJob(q, data, settings)`: the queue named `q` gets exactly one new job, named `q`. */
    method ScheduleJob(q: string, data: Js, opts: JobOpts) returns (id: nat)
      requires Valid()
      modifies this
      ensures Valid()
      ensures queues == Memo(old(queues), q, old(nextHandle)).1
      ensures (broker, id) == Add(old(broker), q, q, data, opts)
      ensures workers == old(workers) && events == old(events)
    {
      var handle := GetOrCreateQ(q);
      broker, id := Add(broker, q, q, data, opts).0, Add(broker, q, q, data, opts).1;
    }

    /**
     * `cancelJobById(q, id)`: false, and nothing removed, when the job is
     * missing, active or completed; otherwise the job leaves the broker.
     */
    method CancelJobById(q: string, id: nat) returns (ok: bool)
      modifies this
      ensures (broker, ok) == Cancel(old(broker), q, id)
      ensures queues == old(queues) && workers == old(workers) && events == old(events)
      ensures nextHandle == old(nextHandle)
    {
      broker, ok := Cancel(broker, q, id).0, Cancel(broker, q, id).1;
    }

    /** `cleanAllRepeatableJobsFromAllQueues()`: every repeating job of every queue leaves the broker. */
    method CleanAllRepeatableJobs()
      modifies this
      ensures broker == DropRepeatable(old(broker))
      ensures queues == old(queues) && workers == old(workers) && events == old(events)
      ensures nextHandle == old(nextHandle)
    {
      broker := DropRepeatable(broker);
    }

    /**
     * `clean()`: every object is closed, failures ignored, and all three
     * memos end empty; the broker's jobs stay.
     */
    method Clean()
      modifies this
      ensures Valid()
      ensures queues == map[] && workers == map[] && events == map[]
      ensures broker == old(broker) && nextHandle == old(nextHandle)
    {
      queues := map[];
      workers := map[];
      events := map[];
    }
  }
}
