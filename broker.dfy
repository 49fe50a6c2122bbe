/**
 * The message broker behind the queues, as an abstract value: for each
 * queue name the jobs it holds, in the order they were added, and the last
 * job id it handed out. Job ids are counters kept per queue and start at 1.
 */
module Brokers {
  import opened Wrappers
  import opened JsValues
  import opened ActionDefs

  datatype JobState = Waiting | Delayed | Active | Completed | Failed

  /** `repeat: { pattern }`; the pattern is missing when the cron name has no entry in the table. */
  datatype Repeat = Repeat(pattern: Option<string>)

  /** The options a job is added with. */
  datatype JobOpts = JobOpts(
    delay: Option<int>,
    attempts: Option<int>,
    backoff: Option<Backoff>,
    repeat: Option<Repeat>,
    removeOnComplete: bool,
    priority: Option<int>)

  const NoOpts := JobOpts(None, None, None, None, false, None)

  datatype Job = Job(id: nat, name: string, data: Js, opts: JobOpts, state: JobState)

  datatype Broker = Broker(jobs: map<string, seq<Job>>, lastId: map<string, nat>)

  const EmptyBroker := Broker(map[], map[])

  function JobsOf(b: Broker, q: string): seq<Job> {
    if q in b.jobs then b.jobs[q] else []
  }

  function LastId(b: Broker, q: string): nat {
    if q in b.lastId then b.lastId[q] else 0
  }

  /** Every job has an id the queue handed out, and no two different jobs share an id. */
  ghost predicate IdsOk(s: seq<Job>, last: nat) {
    (forall j :: j in s ==> 1 <= j.id <= last) &&
    forall j1, j2 :: j1 in s && j2 in s && j1.id == j2.id ==> j1 == j2
  }

  ghost predicate Valid(b: Broker) {
    forall q :: q in b.jobs ==> IdsOk(b.jobs[q], LastId(b, q))
  }

  /** A delayed job waits for its delay; any other starts waiting. */
  function InitialState(opts: JobOpts): (s: JobState)
    ensures s == Delayed <==> opts.delay.Some? && opts.delay.value > 0
    ensures s == Waiting || s == Delayed
  {
    if opts.delay.Some? && opts.delay.value > 0 then Delayed else Waiting
  }

  /**
   * `queue.add(name, data, opts)`: one job with the queue's next id is
   * appended to queue `q`; no other queue changes.
   */
  function Add(b: Broker, q: string, name: string, data: Js, opts: JobOpts): (r: (Broker, nat))
    ensures r.1 == LastId(b, q) + 1 && LastId(r.0, q) == r.1
    ensures JobsOf(r.0, q) == JobsOf(b, q) + [Job(r.1, name, data, opts, InitialState(opts))]
    ensures forall p :: p != q ==> JobsOf(r.0, p) == JobsOf(b, p) && LastId(r.0, p) == LastId(b, p)
  {
    var id := LastId(b, q) + 1;
    (Broker(b.jobs[q := JobsOf(b, q) + [Job(id, name, data, opts, InitialState(opts))]], b.lastId[q := id]), id)
  }

  /** Adding a job keeps every queue's ids distinct and below its counter. */
  lemma {:induction false} AddValid(b: Broker, q: string, name: string, data: Js, opts: JobOpts)
    requires Valid(b)
    ensures Valid(Add(b, q, name, data, opts).0)
  {
    var (b', id) := Add(b, q, name, data, opts);
    forall p | p in b'.jobs
      ensures IdsOk(b'.jobs[p], LastId(b', p))
    {
      if p == q {
        assert IdsOk(JobsOf(b, q), LastId(b, q));
        assert forall j :: j in b'.jobs[q] <==> j in JobsOf(b, q) || j == Job(id, name, data, opts, InitialState(opts));
      }
    }
  }

  /** A new job's id is not the id of any job already in its queue. */
  lemma {:induction false} AddFresh(b: Broker, q: string, name: string, data: Js, opts: JobOpts)
    requires Valid(b)
    ensures forall j :: j in JobsOf(b, q) ==> j.id != Add(b, q, name, data, opts).1
  {
    assert IdsOk(JobsOf(b, q), LastId(b, q));
  }

  /** The jobs of `s` other than the one with id `id`, in order. */
  function Without(s: seq<Job>, id: nat): (r: seq<Job>)
    ensures forall j :: j in r <==> j in s && j.id != id
    ensures |r| <= |s|
  {
    if s == [] then []
    else
      var r := Without(s[..|s| - 1], id);
      assert forall j :: j in s <==> j in s[..|s| - 1] || j == s[|s| - 1];
      if s[|s| - 1].id == id then r else r + [s[|s| - 1]]
  }

  /** A job is cancellable until a worker has taken it and afterwards. */
  predicate Cancellable(j: Job) {
    j.state != Active && j.state != Completed
  }

  /** The job with id `id` in `s`, if there is one. */
  function Find(s: seq<Job>, id: nat): (r: Option<Job>)
    ensures r.Some? ==> r.value in s && r.value.id == id
    ensures r.None? ==> forall j :: j in s ==> j.id != id
  {
    if s == [] then None
    else if s[0].id == id then Some(s[0])
    else Find(s[1..], id)
  }

  /**
   * `cancelJobById(q, id)`: a job that does not exist, or that is active or
   * completed, is left alone and the answer is false; otherwise it is
   * removed and the answer is true.
   */
  function Cancel(b: Broker, q: string, id: nat): (r: (Broker, bool))
    ensures !r.1 ==> r.0 == b
    ensures r.1 ==> JobsOf(r.0, q) == Without(JobsOf(b, q), id) && r.0.lastId == b.lastId
    ensures forall p :: p != q ==> JobsOf(r.0, p) == JobsOf(b, p)
  {
    match Find(JobsOf(b, q), id)
    case None => (b, false)
    case Some(j) =>
      if Cancellable(j) then (Broker(b.jobs[q := Without(JobsOf(b, q), id)], b.lastId), true)
      else (b, false)
  }

  /** A cancel succeeds exactly when a job with that id is in the queue and not active or completed. */
  lemma {:induction false} CancelIff(b: Broker, q: string, id: nat)
    requires Valid(b)
    ensures Cancel(b, q, id).1 <==> exists j :: j in JobsOf(b, q) && j.id == id && Cancellable(j)
  {
    assert IdsOk(JobsOf(b, q), LastId(b, q));
  }

  /** Removing a job keeps the broker valid. */
  lemma {:induction false} CancelValid(b: Broker, q: string, id: nat)
    requires Valid(b)
    ensures Valid(Cancel(b, q, id).0)
  {
    assert IdsOk(JobsOf(b, q), LastId(b, q));
  }

  /**
   * `job.remove()`: the job leaves its queue unless a worker holds it, in
   * which case the call fails and nothing changes.
   */
  function Remove(b: Broker, q: string, id: nat): (r: Broker)
    ensures r.lastId == b.lastId
    ensures forall p :: p != q ==> JobsOf(r, p) == JobsOf(b, p)
    ensures JobsOf(r, q) == JobsOf(b, q) || JobsOf(r, q) == Without(JobsOf(b, q), id)
  {
    match Find(JobsOf(b, q), id)
    case None => b
    case Some(j) =>
      if j.state != Active then Broker(b.jobs[q := Without(JobsOf(b, q), id)], b.lastId)
      else b
  }

  /** Removing a job keeps the broker valid, and a job no worker holds is gone afterwards. */
  lemma {:induction false} RemoveValid(b: Broker, q: string, id: nat)
    requires Valid(b)
    ensures Valid(Remove(b, q, id))
    ensures forall j :: j in JobsOf(b, q) && j.id == id && j.state != Active ==> j !in JobsOf(Remove(b, q, id), q)
  {
    assert IdsOk(JobsOf(b, q), LastId(b, q));
  }

  /** The jobs of `s` without a repeat schedule, in order. */
  function NonRepeating(s: seq<Job>): (r: seq<Job>)
    ensures forall j :: j in r <==> j in s && j.opts.repeat.None?
    ensures |r| <= |s|
  {
    if s == [] then []
    else
      var r := NonRepeating(s[..|s| - 1]);
      assert forall j :: j in s <==> j in s[..|s| - 1] || j == s[|s| - 1];
      if s[|s| - 1].opts.repeat.Some? then r else r + [s[|s| - 1]]
  }

  /**
   * `cleanAllRepeatableJobsFromAllQueues()`: every repeating job of every
   * queue is removed; every other job stays, in order.
   */
  function DropRepeatable(b: Broker): (r: Broker)
    ensures r.jobs.Keys == b.jobs.Keys && r.lastId == b.lastId
    ensures forall q :: JobsOf(r, q) == NonRepeating(JobsOf(b, q))
  {
    Broker(map q | q in b.jobs :: NonRepeating(b.jobs[q]), b.lastId)
  }

  /** After the sweep no job repeats, and a second sweep changes nothing. */
  lemma {:induction false} DropRepeatableClean(b: Broker)
    ensures forall q, j :: j in JobsOf(DropRepeatable(b), q) ==> j.opts.repeat.None?
    ensures DropRepeatable(DropRepeatable(b)) == DropRepeatable(b)
  {
    var r := DropRepeatable(b);
    forall q | q in r.jobs
      ensures NonRepeating(r.jobs[q]) == r.jobs[q]
    {
      NonRepeatingNone(r.jobs[q]);
    }
  }

  lemma {:induction false} NonRepeatingNone(s: seq<Job>)
    requires forall j :: j in s ==> j.opts.repeat.None?
    ensures NonRepeating(s) == s
  {
    if s != [] {
      NonRepeatingNone(s[..|s| - 1]);
      assert s[..|s| - 1] + [s[|s| - 1]] == s;
    }
  }
}
