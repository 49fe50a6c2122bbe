/**
 * `Runtime`: the process-wide registry of every module's actions and cron
 * names, bound to an optional `Queue`. It starts the cron jobs and enqueues
 * scheduled jobs. The clock and the `NODE_ENV === 'testing'` switch are
 * parameters.
 */
module Runtimes {
  import opened Wrappers
  import opened JsValues
  import opened AppErrors
  import opened ActionDefs
  import opened ActionModules
  import opened Brokers
  import opened Queues

  /** Why `scheduleJob` throws. */
  datatype ScheduleError =
    | QueueNotAvailable                 // `new Error('Queue not available')`
    | App(e: AppError)                  // the action is not registered
    | NotInFuture(scheduledAt: int)     // `new Error('Scheduled time must be in the future. ...')`

  /** `new Map(modules.flatMap(m => [...m._actions]))`: a later module's entry replaces an earlier one. */
  function UnionAll(tables: seq<map<string, ModuleAction>>): map<string, ModuleAction> {
    if tables == [] then map[] else UnionAll(tables[..|tables| - 1]) + tables[|tables| - 1]
  }

  /** An action name is in the union exactly when some table has it. */
  lemma {:induction false} UnionAllHas(tables: seq<map<string, ModuleAction>>, n: string)
    ensures n in UnionAll(tables) <==> exists i :: 0 <= i < |tables| && n in tables[i]
  {
    if tables != [] {
      var k := |tables| - 1;
      var front := tables[..k];
      UnionAllHas(front, n);
      if n in UnionAll(tables) && n !in tables[k] {
        var i :| 0 <= i < |front| && n in front[i];
        assert tables[i] == front[i];
      }
      if i :| 0 <= i < |tables| && n in tables[i] {
        if i < k {
          assert front[i] == tables[i];
        }
      }
    }
  }

  /** The union carries, for each name, the entry of the last table that has it. */
  lemma {:induction false} UnionAllLastWins(tables: seq<map<string, ModuleAction>>, n: string, i: nat)
    requires i < |tables| && n in tables[i]
    requires forall j :: i < j < |tables| ==> n !in tables[j]
    ensures n in UnionAll(tables) && UnionAll(tables)[n] == tables[i][n]
  {
    var k := |tables| - 1;
    if i < k {
      var front := tables[..k];
      assert front[i] == tables[i];
      forall j | i < j < |front|
        ensures n !in front[j]
      {
        assert front[j] == tables[j];
      }
      UnionAllLastWins(front, n, i);
    }
  }

  /** `modules.flatMap(m => m._crons)` */
  function ConcatAll(lists: seq<seq<string>>): (r: seq<string>)
    ensures forall i, x :: 0 <= i < |lists| && x in lists[i] ==> x in r
  {
    if lists == [] then []
    else
      var k := |lists| - 1;
      var r := ConcatAll(lists[..k]);
      assert forall i :: 0 <= i < k ==> lists[..k][i] == lists[i];
      r + lists[k]
  }

  /** The action tables of the modules, in order. */
  function Tables(ms: seq<Module>): (t: seq<map<string, ModuleAction>>)
    reads ms
    ensures |t| == |ms| && forall i :: 0 <= i < |ms| ==> t[i] == ms[i].actions
  {
    if ms == [] then [] else Tables(ms[..|ms| - 1]) + [ms[|ms| - 1].actions]
  }

  /** The cron lists of the modules, in order. */
  function CronLists(ms: seq<Module>): (t: seq<seq<string>>)
    reads ms
    ensures |t| == |ms| && forall i :: 0 <= i < |ms| ==> t[i] == ms[i].crons
  {
    if ms == [] then [] else CronLists(ms[..|ms| - 1]) + [ms[|ms| - 1].crons]
  }

  /** `_settings?.concurrency ?? 10` */
  function Concurrency(s: Option<Settings>): (c: int)
    ensures s.Some? && s.value.concurrency.Some? ==> c == s.value.concurrency.value
    ensures s.None? || s.value.concurrency.None? ==> c == 10
  {
    if s.Some? && s.value.concurrency.Some? then s.value.concurrency.value else 10
  }

  /** `{ context, input }`, the payload of a scheduled job. */
  function Payload(context: Js, input: Js): (p: Js)
    ensures p.Obj? && KeysOf(p.fields) == ["context", "input"]
    ensures Get(p, "context") == context && Get(p, "input") == input
  {
    assert "context"[0] != "input"[0];
    LookupPair(("context", context), ("input", input), "context");
    LookupPair(("context", context), ("input", input), "input");
    Obj([("context", context), ("input", input)])
  }

  /** The payload of a cron job: an empty context and an undefined input. */
  const CronPayload: Js := Payload(Obj([]), Undefined)

  /** `CRON[cron]`: undefined for a name the table lacks. */
  function CronPattern(cron: string): (p: Option<string>)
    ensures p.Some? <==> cron in CronTable
    ensures p.Some? ==> p.value == CronTable[cron]
  {
    if cron in CronTable then Some(CronTable[cron]) else None
  }

  /**
   * The job options `scheduleJob` builds: a delay when a time was given,
   * and `attempts` plus `backoff {type, delay}` from `jobRetry`.
   */
  function JobOptions(settings: Option<Settings>, delay: Option<int>): JobOpts {
    var retry := if settings.Some? then settings.value.jobRetry else None;
    JobOpts(
      delay,
      if retry.Some? then Some(retry.value.attempts) else None,
      if retry.Some? then retry.value.backoff else None,
      None, false, None)
  }

  /** The error `scheduleJob` throws for an action that is not registered. */
  function NotRegistered(name: string): (e: AppError)
    ensures e.typ == Str("INTERNAL") && e.code == Num(500)
    ensures e.message == Str("Action definition not found for " + name)
  {
    MakeError(Internal, "Action definition not found for " + name)
  }

  /**
   * What `scheduleJob` decides, in order: no usable queue; the action not
   * registered; a time that is not in the future; otherwise the options to
   * enqueue with.
   */
  function SchedulePlan(queueOk: bool, registered: bool, name: string, settings: Option<Settings>,
                        scheduledAt: Option<int>, now: int): Result<JobOpts, ScheduleError>
  {
    if !queueOk then Err(QueueNotAvailable)
    else if !registered then Err(App(NotRegistered(name)))
    else if scheduledAt.Some? && scheduledAt.value - now <= 0 then Err(NotInFuture(scheduledAt.value))
    else Ok(JobOptions(settings, if scheduledAt.Some? then Some(scheduledAt.value - now) else None))
  }

  /**
   * The errors come in the source's order, a time at or before `now` is
   * refused, and an accepted job is delayed by exactly `scheduledAt - now`
   * and retried as `jobRetry` says.
   */
  lemma {:induction false} SchedulePlanSpec(queueOk: bool, registered: bool, name: string, settings: Option<Settings>,
                         scheduledAt: Option<int>, now: int)
    ensures var r := SchedulePlan(queueOk, registered, name, settings, scheduledAt, now);
      (!queueOk ==> r == Err(QueueNotAvailable)) &&
      (queueOk && !registered ==> r == Err(App(NotRegistered(name)))) &&
      (queueOk && registered ==> (r.Err? <==> scheduledAt.Some? && scheduledAt.value <= now)) &&
      (r.Ok? ==>
         (r.value.delay.Some? <==> scheduledAt.Some?) &&
         (r.value.delay.Some? ==> r.value.delay.value == scheduledAt.value - now && r.value.delay.value > 0) &&
         r.value.repeat.None? && !r.value.removeOnComplete && r.value.priority.None?)
  {
  }

  /** `jobRetry` becomes `attempts`, and its backoff, when there is one, `backoff {type, delay}`; without it neither is set. */
  lemma {:induction false} JobOptionsRetry(settings: Option<Settings>, delay: Option<int>)
    ensures var o := JobOptions(settings, delay);
      o.delay == delay &&
      (settings.Some? && settings.value.jobRetry.Some? ==>
         o.attempts == Some(settings.value.jobRetry.value.attempts) && o.backoff == settings.value.jobRetry.value.backoff) &&
      (settings.None? || settings.value.jobRetry.None? ==> o.attempts.None? && o.backoff.None?)
  {
  }

  /** The definitions of an action table. */
  ghost function Defs(actions: map<string, ModuleAction>): set<ActionDef> {
    set n | n in actions :: actions[n].def
  }

  /** The settings of each registered action's definition. */
  ghost function SettingsOf(actions: map<string, ModuleAction>): (m: map<string, Option<Settings>>)
    reads Defs(actions)
    ensures m.Keys == actions.Keys
  {
    map n | n in actions :: actions[n].def.settings
  }

  /**
   * `#getValidCronAction(name)`, on the actions' settings: the cron key of
   * a registered action whose settings name one.
   */
  function CronKey(settings: map<string, Option<Settings>>, name: string): (r: Option<string>)
    ensures r.Some? <==> name in settings && HasCron(settings[name])
    ensures r.Some? ==> r.value == settings[name].value.cron.value
  {
    if name in settings && HasCron(settings[name]) then Some(settings[name].value.cron.value) else None
  }

  /** The options of a cron job: repeating on the table's pattern for its cron key. */
  function CronOpts(key: string): (o: JobOpts)
    ensures o.repeat == Some(Repeat(CronPattern(key)))
    ensures o.delay.None? && o.attempts.None? && o.backoff.None?
  {
    NoOpts.(repeat := Some(Repeat(CronPattern(key))))
  }

  /** The broker after `#startCron` has run for each name in turn: one repeating job per valid cron action. */
  function CronJobs(b: Broker, settings: map<string, Option<Settings>>, names: seq<string>): Broker {
    if names == [] then b
    else
      var k := |names| - 1;
      var b' := CronJobs(b, settings, names[..k]);
      match CronKey(settings, names[k])
      case None => b'
      case Some(key) => Add(b', names[k], names[k], CronPayload, CronOpts(key)).0
  }

  /** How many times `q` occurs in `names`. */
  function Occurrences(names: seq<string>, q: string): (c: nat)
    ensures c <= |names|
    ensures c == 0 <==> q !in names
  {
    if names == [] then 0
    else
      var k := |names| - 1;
      assert forall x :: x in names <==> x in names[..k] || x == names[k];
      Occurrences(names[..k], q) + if names[k] == q then 1 else 0
  }

  /** Starting the crons keeps the broker valid. */
  lemma {:induction false} CronJobsValid(b: Broker, settings: map<string, Option<Settings>>, names: seq<string>)
    requires Valid(b)
    ensures Valid(CronJobs(b, settings, names))
  {
    if names != [] {
      var k := |names| - 1;
      CronJobsValid(b, settings, names[..k]);
      match CronKey(settings, names[k])
      case None =>
      case Some(key) => AddValid(CronJobs(b, settings, names[..k]), names[k], names[k], CronPayload, CronOpts(key));
    }
  }

  /**
   * Starting the crons keeps every job already in a queue and appends one
   * repeating job for each occurrence of the queue's name among the cron
   * names, when that name is a valid cron action, and none otherwise.
   */
  lemma {:induction false} CronJobsAdds(b: Broker, settings: map<string, Option<Settings>>, names: seq<string>, q: string)
    ensures var after := JobsOf(CronJobs(b, settings, names), q);
      |after| == |JobsOf(b, q)| + (if CronKey(settings, q).Some? then Occurrences(names, q) else 0) &&
      JobsOf(b, q) <= after &&
      forall i :: |JobsOf(b, q)| <= i < |after| ==> after[i].opts.repeat.Some? && after[i].data == CronPayload
  {
    if names != [] {
      CronJobsAdds(b, settings, names[..|names| - 1], q);
    }
  }

  /** The counter after `getOrCreateQ(name)`: one further on exactly when it creates the queue. */
  function HandleAfter(queues: map<string, Handle>, name: string, h: Handle): Handle {
    if name in queues then h else h + 1
  }

  /** The names among `names` that are valid cron actions: the ones `startCrons` gives a queue and a worker. */
  ghost function CronSet(settings: map<string, Option<Settings>>, names: seq<string>): set<string> {
    set c | c in names && CronKey(settings, c).Some?
  }

  /** One more name adds itself to the cron set exactly when it is a valid cron action. */
  lemma {:induction false} CronSetStep(settings: map<string, Option<Settings>>, names: seq<string>, i: nat)
    requires i < |names|
    ensures CronSet(settings, names[..i + 1]) ==
      CronSet(settings, names[..i]) + if CronKey(settings, names[i]).Some? then {names[i]} else {}
  {
    assert names[..i + 1] == names[..i] + [names[i]];
  }

  /** `m` keeps every entry of `m0` and gains exactly the names `added`. */
  ghost predicate Extends<V>(m0: map<string, V>, m: map<string, V>, added: set<string>) {
    m.Keys == m0.Keys + added && forall k :: k in m0 ==> k in m && m[k] == m0[k]
  }

  /** A memo step on top of an extension is an extension by one more name. */
  lemma {:induction false} ExtendsMemo<V>(m0: map<string, V>, m1: map<string, V>, added: set<string>, name: string, created: V)
    requires Extends(m0, m1, added)
    ensures Extends(m0, Memo(m1, name, created).1, added + {name})
  {
    MemoOnlyAdds(m1, name, created);
  }

  /**
   * Every worker `m` gained over `m0` runs its action's handler with the
   * action's concurrency, as `#startCron` creates it.
   */
  ghost predicate CronWorkers(m0: map<string, Worker>, m: map<string, Worker>,
                              actions: map<string, ModuleAction>, settings: map<string, Option<Settings>>) {
    forall c :: c in m && c !in m0 ==>
      c in actions && c in settings && m[c].fn == actions[c].handler && m[c].concurrency == Some(Concurrency(settings[c]))
  }

  /** A memo step that would create the right worker keeps `CronWorkers`. */
  lemma {:induction false} CronWorkersMemo(m0: map<string, Worker>, m1: map<string, Worker>, actions: map<string, ModuleAction>,
                                           settings: map<string, Option<Settings>>, name: string, created: Worker)
    requires CronWorkers(m0, m1, actions, settings)
    requires name in actions && name in settings
    requires created.fn == actions[name].handler && created.concurrency == Some(Concurrency(settings[name]))
    ensures CronWorkers(m0, Memo(m1, name, created).1, actions, settings)
  {
  }

  /**
   * One `#startCron(names[i])` on the tables: a valid cron action's queue
   * and worker are memoized, any other name leaves both tables alone, and
   * either way the tables cover the cron set of one more name.
   */
  lemma {:induction false} StartCronStep(q0: map<string, Handle>, w0: map<string, Worker>,
                                         q1: map<string, Handle>, w1: map<string, Worker>, h1: Handle,
                                         q2: map<string, Handle>, w2: map<string, Worker>,
                                         actions: map<string, ModuleAction>, settings: map<string, Option<Settings>>,
                                         names: seq<string>, i: nat)
    requires i < |names| && settings.Keys == actions.Keys
    requires Extends(q0, q1, CronSet(settings, names[..i])) && Extends(w0, w1, CronSet(settings, names[..i]))
    requires CronWorkers(w0, w1, actions, settings)
    requires CronKey(settings, names[i]).Some? ==>
      q2 == Memo(q1, names[i], h1).1 &&
      w2 == Memo(w1, names[i], Worker(HandleAfter(q1, names[i], h1), actions[names[i]].handler,
                                      Some(Concurrency(settings[names[i]])))).1
    requires CronKey(settings, names[i]).None? ==> q2 == q1 && w2 == w1
    ensures Extends(q0, q2, CronSet(settings, names[..i + 1])) && Extends(w0, w2, CronSet(settings, names[..i + 1]))
    ensures CronWorkers(w0, w2, actions, settings)
  {
    CronSetStep(settings, names, i);
    var c := names[i];
    if CronKey(settings, c).Some? {
      var created := Worker(HandleAfter(q1, c, h1), actions[c].handler, Some(Concurrency(settings[c])));
      ExtendsMemo(q0, q1, CronSet(settings, names[..i]), c, h1);
      ExtendsMemo(w0, w1, CronSet(settings, names[..i]), c, created);
      CronWorkersMemo(w0, w1, actions, settings, c, created);
    }
  }

  class Runtime {
    /** `_appActions` */
    var appActions: map<string, ModuleAction>
    /** `_appCrons` */
    var appCrons: seq<string>
    /** `_queue` */
    var queue: Queue?

    ghost predicate Valid()
      reads this, queue
    {
      queue != null ==> queue.Valid() && Brokers.Valid(queue.broker)
    }

    /** A runtime before `init`: no actions, no crons, no queue. */
    constructor()
      ensures appActions == map[] && appCrons == [] && queue == null
      ensures Valid()
    {
      appActions := map[];
      appCrons := [];
      queue := null;
    }

    /** `#validateQueue()`: a queue is bound and has a connection. */
    predicate QueueOk()
      reads this, queue
    {
      queue != null && queue.redisConn
    }

    /**
     * `init(modules, queue)`: the action table is replaced by the union of
     * the modules' tables; the cron names are appended to the ones already
     * there.
     */
    method Init(modules: seq<Module>, q: Queue?)
      modifies this
      ensures appActions == UnionAll(old(Tables(modules)))
      ensures appCrons == old(appCrons + ConcatAll(CronLists(modules)))
      ensures queue == q
    {
      var acts, added := Gather(modules);
      appActions := acts;
      appCrons := appCrons + added;
      queue := q;
    }

    /** `getHandler(name)` */
    function GetHandler(name: string): (r: Option<Handler>)
      reads this
      ensures name !in appActions ==> r.None?
      ensures name in appActions ==> r == appActions[name].handler
    {
      if name in appActions then appActions[name].handler else None
    }

    /**
     * `#startCron(name)`: with a usable queue and a cron action of that
     * name, the action's queue and worker exist afterwards (the worker
     * running its handler with its concurrency, default 10) and one job
     * repeating on the action's cron pattern is added; otherwise nothing
     * happens.
     */
    method StartCron(name: string)
      requires Valid()
      modifies queue
      ensures Valid()
      ensures QueueOk() ==> queue.broker == CronJobs(old(queue.broker), old(SettingsOf(appActions)), [name])
      ensures QueueOk() && old(CronKey(SettingsOf(appActions), name)).Some? ==>
        queue.queues.Keys == old(queue.queues.Keys) + {name} && queue.workers.Keys == old(queue.workers.Keys) + {name} &&
        (name !in old(queue.workers) ==>
           queue.workers[name].fn == appActions[name].handler &&
           queue.workers[name].concurrency == Some(Concurrency(old(SettingsOf(appActions))[name])))
      ensures QueueOk() && old(CronKey(SettingsOf(appActions), name)).Some? ==>
        queue.queues == Memo(old(queue.queues), name, old(queue.nextHandle)).1 &&
        queue.workers == Memo(old(queue.workers), name,
          Worker(HandleAfter(old(queue.queues), name, old(queue.nextHandle)), appActions[name].handler,
                 Some(Concurrency(old(SettingsOf(appActions))[name])))).1
      ensures QueueOk() && old(CronKey(SettingsOf(appActions), name)).None? ==>
        queue.queues == old(queue.queues) && queue.workers == old(queue.workers)
      ensures queue != null && !(QueueOk() && old(CronKey(SettingsOf(appActions), name)).Some?) ==> unchanged(queue)
      ensures queue != null ==> queue.events == old(queue.events)
    {
      if queue == null || !queue.redisConn {
        return;
      }
      ghost var st := SettingsOf(appActions);
      if name !in appActions || !HasCron(appActions[name].def.settings) {
        assert CronJobs(queue.broker, st, [name]) == CronJobs(queue.broker, st, []);
        return;
      }
      var a := appActions[name];
      var settings := a.def.settings;
      assert st[name] == settings;
      ghost var q0, w0, h0 := queue.queues, queue.workers, queue.nextHandle;
      var handle := queue.GetOrCreateQ(name);
      MemoOnlyAdds(q0, name, h0);
      ghost var h1 := queue.nextHandle;
      assert h1 == HandleAfter(q0, name, h0);
      ghost var created := Worker(h1, a.handler, Some(Concurrency(settings)));
      var worker := queue.GetOrCreateWorker(name, a.handler, Some(Concurrency(settings)));
      MemoOnlyAdds(w0, name, created);
      ghost var w1 := queue.workers;
      assert w1 == Memo(w0, name, created).1;
      AddValid(queue.broker, name, name, CronPayload, CronOpts(settings.value.cron.value));
      var id := queue.ScheduleJob(name, CronPayload, CronOpts(settings.value.cron.value));
      assert queue.workers == w1;
      assert [name][..0] == [];
    }

    /**
     * `start()`: nothing without actions, without a queue, or when testing;
     * otherwise, with a connected queue, every repeating job in the broker
     * is removed and then each cron name gets its job.
     */
    method Start(testing: bool)
      requires Valid()
      modifies queue
      ensures Valid()
      ensures queue != null && (|appActions| == 0 || testing || !queue.redisConn) ==> unchanged(queue)
      ensures |appActions| != 0 && !testing && QueueOk() ==>
        queue.broker == CronJobs(DropRepeatable(old(queue.broker)), old(SettingsOf(appActions)), appCrons)
      ensures queue != null ==> queue.events == old(queue.events)
      ensures |appActions| != 0 && !testing && QueueOk() ==>
        Extends(old(queue.queues), queue.queues, CronSet(old(SettingsOf(appActions)), appCrons)) &&
        Extends(old(queue.workers), queue.workers, CronSet(old(SettingsOf(appActions)), appCrons))
      ensures |appActions| != 0 && !testing && QueueOk() ==>
        CronWorkers(old(queue.workers), queue.workers, appActions, old(SettingsOf(appActions)))
    {
      if |appActions| == 0 || queue == null || testing {
        return;
      }
      if !QueueOk() {
        return;
      }
      queue.CleanAllRepeatableJobs();
      DropRepeatableValid(old(queue.broker));
      assert SettingsOf(appActions) == old(SettingsOf(appActions));
      StartCrons();
    }

    /** `startCrons()`: `#startCron` for each cron name, in order. */
    method StartCrons()
      requires Valid()
      modifies queue
      ensures Valid()
      ensures QueueOk() ==> queue.broker == CronJobs(old(queue.broker), old(SettingsOf(appActions)), appCrons)
      ensures queue != null && !QueueOk() ==> unchanged(queue)
      ensures queue != null ==> queue.events == old(queue.events)
      ensures QueueOk() ==>
        Extends(old(queue.queues), queue.queues, CronSet(old(SettingsOf(appActions)), appCrons)) &&
        Extends(old(queue.workers), queue.workers, CronSet(old(SettingsOf(appActions)), appCrons))
      ensures QueueOk() ==>
        CronWorkers(old(queue.workers), queue.workers, appActions, old(SettingsOf(appActions)))
    {
      ghost var st := SettingsOf(appActions);
      ghost var b0 := if queue != null then queue.broker else EmptyBroker;
      ghost var q0: map<string, Handle>, w0: map<string, Worker> := map[], map[];
      if queue != null {
        q0, w0 := queue.queues, queue.workers;
      }
      for i := 0 to |appCrons|
        invariant Valid()
        invariant QueueOk() ==> queue.broker == CronJobs(b0, st, appCrons[..i])
        invariant queue != null && !QueueOk() ==> unchanged(queue)
        invariant queue != null ==> queue.events == old(queue.events)
        invariant QueueOk() ==>
          Extends(q0, queue.queues, CronSet(st, appCrons[..i])) && Extends(w0, queue.workers, CronSet(st, appCrons[..i]))
        invariant QueueOk() ==> CronWorkers(w0, queue.workers, appActions, st)
      {
        assert appCrons[..i + 1][..i] == appCrons[..i];
        assert SettingsOf(appActions) == st;
        ghost var q1: map<string, Handle>, w1: map<string, Worker>, h1: Handle := map[], map[], 0;
        if QueueOk() {
          q1, w1, h1 := queue.queues, queue.workers, queue.nextHandle;
          CronJobsStep(queue.broker, st, appCrons[..i + 1], b0);
        }
        StartCron(appCrons[i]);
        if QueueOk() {
          StartCronStep(q0, w0, q1, w1, h1, queue.queues, queue.workers,
                        appActions, st, appCrons, i);
        }
      }
      assert appCrons[..|appCrons|] == appCrons;
    }

    /**
     * `scheduleJob(action, {context, input, scheduledAt})`: the checks of
     * `SchedulePlan` in order. An unusable queue or an unregistered action
     * changes nothing; past that, the action's queue and worker exist (the
     * worker's concurrency from the given definition's settings, default
     * 10), and only then is a past time refused, with no job added. An
     * accepted job carries exactly `{context, input}`.
     */
    method ScheduleJob(action: ActionDef, context: Js, input: Js, scheduledAt: Option<int>, now: int)
        returns (r: Result<nat, ScheduleError>)
      requires Valid()
      modifies queue
      ensures Valid()
      ensures var plan := SchedulePlan(QueueOk(), action.name in appActions, action.name, action.settings, scheduledAt, now);
        (r.Err? <==> plan.Err?) && (r.Err? ==> r.error == plan.error) &&
        (r.Ok? ==> (queue.broker, r.value) == Add(old(queue.broker), action.name, action.name, Payload(context, input), plan.value))
      ensures queue != null && (!QueueOk() || action.name !in appActions) ==> unchanged(queue)
      ensures QueueOk() && action.name in appActions ==>
        queue.queues.Keys == old(queue.queues.Keys) + {action.name} &&
        queue.workers.Keys == old(queue.workers.Keys) + {action.name} &&
        (action.name !in old(queue.workers) ==>
           queue.workers[action.name].fn == appActions[action.name].handler &&
           queue.workers[action.name].concurrency == Some(Concurrency(action.settings)))
      ensures QueueOk() && action.name in appActions ==>
        queue.queues == Memo(old(queue.queues), action.name, old(queue.nextHandle)).1 &&
        queue.workers == Memo(old(queue.workers), action.name,
          Worker(HandleAfter(old(queue.queues), action.name, old(queue.nextHandle)), appActions[action.name].handler,
                 Some(Concurrency(action.settings)))).1
      ensures queue != null ==> queue.events == old(queue.events)
      ensures r.Err? ==> queue == null || queue.broker == old(queue.broker)
    {
      ghost var plan := SchedulePlan(QueueOk(), action.name in appActions, action.name, action.settings, scheduledAt, now);
      if !QueueOk() {
        return Err(QueueNotAvailable);
      }
      if action.name !in appActions {
        return Err(App(NotRegistered(action.name)));
      }
      var name, settings := action.name, action.settings;
      ghost var q0, h0 := queue.queues, queue.nextHandle;
      var handle := queue.GetOrCreateQ(name);
      MemoOnlyAdds(q0, name, h0);
      ghost var w0, h1 := queue.workers, queue.nextHandle;
      assert h1 == HandleAfter(q0, name, h0);
      ghost var created := Worker(h1, appActions[name].handler, Some(Concurrency(settings)));
      var worker := queue.GetOrCreateWorker(name, appActions[name].handler, Some(Concurrency(settings)));
      MemoOnlyAdds(w0, name, created);
      ghost var q1, w1 := queue.queues, queue.workers;
      assert w1 == Memo(w0, name, created).1;
      var delay: Option<int> := None;
      if scheduledAt.Some? {
        var delayMs := scheduledAt.value - now;
        if delayMs <= 0 {
          assert plan == Err(NotInFuture(scheduledAt.value));
          return Err(NotInFuture(scheduledAt.value));
        }
        delay := Some(delayMs);
      }
      var opts := JobOptions(settings, delay);
      assert plan == Ok(opts);
      AddValid(queue.broker, name, name, Payload(context, input), opts);
      var id := queue.ScheduleJob(name, Payload(context, input), opts);
      assert queue.queues == q1 && queue.workers == w1;
      r := Ok(id);
    }

    /** `cancelScheduledJob(name, id)`: false without a usable queue; otherwise the broker's cancel. */
    method CancelScheduledJob(actionName: string, jobId: nat) returns (ok: bool)
      requires Valid()
      modifies queue
      ensures Valid()
      ensures !QueueOk() ==> !ok
      ensures !QueueOk() && queue != null ==> unchanged(queue)
      ensures QueueOk() ==>
        (queue.broker, ok) == Cancel(old(queue.broker), actionName, jobId) &&
        queue.queues == old(queue.queues) && queue.workers == old(queue.workers) && queue.events == old(queue.events)
    {
      if !QueueOk() {
        return false;
      }
      ok := queue.CancelJobById(actionName, jobId);
      CancelValid(old(queue.broker), actionName, jobId);
    }

    /** `shutdown()`: the queue, if any, is cleaned; the action table and the cron list end empty. */
    method Shutdown()
      requires Valid()
      modifies this, queue
      ensures Valid()
      ensures appActions == map[] && appCrons == [] && queue == old(queue)
      ensures queue != null ==>
        queue.queues == map[] && queue.workers == map[] && queue.events == map[] &&
        queue.broker == old(queue.broker)
    {
      if queue != null {
        queue.Clean();
      }
      appActions := map[];
      appCrons := [];
    }
  }

  /** The loop of `init`: the union of the modules' action tables and the concatenation of their cron lists. */
  method Gather(modules: seq<Module>) returns (acts: map<string, ModuleAction>, added: seq<string>)
    ensures acts == UnionAll(Tables(modules)) && added == ConcatAll(CronLists(modules))
  {
    ghost var tables, lists := Tables(modules), CronLists(modules);
    acts, added := map[], [];
    for i := 0 to |modules|
      invariant acts == UnionAll(tables[..i]) && added == ConcatAll(lists[..i])
    {
      assert tables[..i + 1][..i] == tables[..i] && lists[..i + 1][..i] == lists[..i];
      acts := acts + modules[i].actions;
      added := added + modules[i].crons;
    }
    assert tables[..|modules|] == tables && lists[..|modules|] == lists;
  }

  /** Running one more cron name extends the fold by that name. */
  lemma {:induction false} CronJobsStep(before: Broker, settings: map<string, Option<Settings>>, names: seq<string>, b0: Broker)
    requires names != [] && before == CronJobs(b0, settings, names[..|names| - 1])
    ensures CronJobs(b0, settings, names) == CronJobs(before, settings, [names[|names| - 1]])
  {
    assert [names[|names| - 1]][..0] == [];
  }

  /** Removing repeating jobs keeps the broker valid. */
  lemma {:induction false} DropRepeatableValid(b: Broker)
    requires Valid(b)
    ensures Valid(DropRepeatable(b))
  {
    forall q | q in DropRepeatable(b).jobs
      ensures IdsOk(DropRepeatable(b).jobs[q], LastId(DropRepeatable(b), q))
    {
      assert IdsOk(b.jobs[q], LastId(b, q));
      assert JobsOf(DropRepeatable(b), q) == NonRepeating(JobsOf(b, q));
    }
  }
}
