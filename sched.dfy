/**
 * `grapy/sched.py`: the two concrete schedulers.
 *
 * `Scheduler` spawns one pool task per pushed request; a task runs the
 * request through the engine and re-pushes it, no longer unique, unless
 * it succeeded or was ignored. The pool is a first-in first-out queue of
 * tasks not yet run.
 *
 * `PeriodicScheduler` hands requests and items to a periodic worker as
 * jobs, trying a bounded number of times, and settles each job it runs
 * with `done()` or `sched_later(count + 10, 1)`.
 */
module Sched {
  import opened Wrappers
  import opened Py
  import opened Exceptions
  import opened BaseRequest
  import opened BaseSpider
  import Dicts
  import Item
  import Utf8
  import Utils
  import Engine
  import BaseSched

  // ---------------------------------------------------------------- the worker-pool scheduler

  /** The pool scheduler as the engine sees it: spawning a task never raises; items go through the pipelines. */
  const PoolPort: Engine.SchedPort :=
    Engine.SchedPort((r: Req) => None, BaseSched.BasePort.pushItem)

  function HandOff(e: Engine.Effect): seq<Req>
  {
    if e.SchedReq? then [e.req] else []
  }

  /** The requests a stretch of the engine's effects handed to its scheduler, in order. */
  function Handed(t: seq<Engine.Effect>): seq<Req>
  {
    Engine.ConcatMap(HandOff, t)
  }

  /**
   * What a pool task pushes again after `submit_req`: nothing after
   * success or IgnoreRequest, otherwise the same request, once, with
   * `unique` cleared.
   */
  function Requeued(r: Req, raised: Option<Exc>): (q: seq<Req>)
    ensures |q| <= 1
    ensures q != [] <==> raised.Some? && raised.value != IgnoreRequest
    ensures forall k :: 0 <= k < |q| ==> q[k] == r.(unique := false) && !q[k].unique
  {
    if raised.None? || raised.value == IgnoreRequest then [] else [r.(unique := false)]
  }

  /** What a task logs: an exception that is neither of the two request signals. */
  function Complaint(raised: Option<Exc>): (l: seq<Exc>)
    ensures l != [] <==> raised.Some? && raised.value != IgnoreRequest && raised.value != RetryRequest
    ensures forall k :: 0 <= k < |l| ==> l[k] == raised.value
  {
    if raised.Some? && raised.value != IgnoreRequest && raised.value != RetryRequest then [raised.value] else []
  }

  /**
   * Clearing `unique` before the re-push changes nothing on the wire:
   * the requeued request packs to the same text as the one that ran.
   */
  lemma RequeueKeepsWire(j: Json, r: Req, raised: Option<Exc>)
    ensures forall k :: 0 <= k < |Requeued(r, raised)| ==> Pack(j, Requeued(r, raised)[k]) == Pack(j, r)
  {
    var q := r.(unique := false);
    assert Slots(j, q) == Slots(j, r);
  }

  /** Only the requests handed over are collected, in order: the ends of a trace contribute their own. */
  lemma HandedAppend(a: seq<Engine.Effect>, b: seq<Engine.Effect>)
    ensures Handed(a + b) == Handed(a) + Handed(b)
  {
    Engine.ConcatMapAppend(HandOff, a, b);
  }

  /** An event is not a hand-off, and a hand-off is exactly its request. */
  lemma HandedSingle(e: Engine.Effect)
    ensures Handed([e]) == if e.SchedReq? then [e.req] else []
  {
    Engine.ConcatMapSingle(HandOff, e);
  }

  /** The requests handed over during a run are those of its effects before the closing event. */
  lemma Spawn(t: seq<Engine.Effect>, run: seq<Engine.Effect>, event: Engine.Effect)
    requires t == run + [event] && !event.SchedReq?
    ensures Handed(t) == Handed(run)
  {
    HandedAppend(run, [event]);
    HandedSingle(event);
  }

  /** `Scheduler(size)`: a base scheduler and a pool of at most `size` concurrent tasks. */
  class Scheduler {
    const base: BaseSched.BaseScheduler
    const size: int
    /** The spawned tasks not yet run, oldest first; each is `submit_req(req)` for its request. */
    var pending: seq<Req>
    /** What `logger.exception` received, in order. */
    var logged: seq<Exc>

    /** Once attached, the engine's scheduler is this pool. */
    ghost predicate Valid()
      reads this, base, base.engine
    {
      base.engine != null ==> base.engine.sched == Some(PoolPort)
    }

    constructor (size: int := 10)
      ensures fresh(base) && base.engine == null && !base.isRunning
      ensures this.size == size && pending == [] && logged == []
      ensures Valid()
    {
      base := new BaseSched.BaseScheduler();
      this.size := size;
      pending := [];
      logged := [];
    }

    /** `engine.set_sched(sched)` for this pool. */
    method Attach(e: Engine.Engine)
      modifies base, e
      ensures base.engine == e && e.sched == Some(PoolPort)
      ensures e.spiders == old(e.spiders) && e.pipelines == old(e.pipelines)
      ensures e.middlewares == old(e.middlewares) && e.trace == old(e.trace)
      ensures Valid()
    {
      base.Attach(e, PoolPort);
    }

    /** `push_req(req)`: one task spawned for the request, at the back of the pool; nothing is raised. */
    method PushReq(r: Req) returns (err: Option<Exc>)
      modifies this
      ensures pending == old(pending) + [r] && logged == old(logged)
      ensures err == None && err == PoolPort.pushReq(r)
    {
      pending := pending + [r];
      err := None;
    }

    /** `push_item(item)`, inherited: the engine's pipelines, straight away. */
    method PushItem(item: Item.Record) returns (err: Option<Exc>)
      ensures base.engine == null ==> err == Some(AttributeError)
      ensures base.engine != null ==> err == PoolPort.pushItem(item, base.engine.pipelines)
    {
      err := base.PushItem(item);
    }

    /**
     * The oldest task runs `submit_req(req)`: the engine processes the
     * request, and each request it hands its scheduler meanwhile is
     * spawned here; then the request is pushed again, not unique, unless
     * it succeeded or was ignored, and any exception other than the two
     * signals is logged. Without an engine the AttributeError takes the
     * last path.
     */
    method RunTask(fetch: Req -> Result<Response, Exc>)
      requires pending != [] && Valid()
      modifies this, base.engine
      ensures Valid()
      ensures base.engine == null ==>
                pending == old(pending[1..]) + Requeued(old(pending[0]), Some(AttributeError)) &&
                logged == old(logged) + Complaint(Some(AttributeError))
      ensures base.engine != null ==>
                var r := old(pending[0]);
                var run := Engine.ProcessRun(old(base.engine.Cfg()), old(base.engine.spiders), fetch, r);
                && base.engine.trace == old(base.engine.trace) + run.trace + [Engine.ProcessEvent(r.spider, run.raised)]
                && pending == old(pending[1..]) + Handed(run.trace) + Requeued(r, run.raised)
                && logged == old(logged) + Complaint(run.raised)
                && base.engine.Cfg() == old(base.engine.Cfg()) && base.engine.spiders == old(base.engine.spiders)
    {
      var r := pending[0];
      pending := pending[1..];
      var err := Execute(r, fetch);
      ghost var spawned := pending;
      if err.Some? && err.value != IgnoreRequest {
        var _ := PushReq(r.(unique := false));
        if err.value != RetryRequest {
          logged := logged + [err.value];
        }
      }
      assert pending == spawned + Requeued(r, err);
    }

    /**
     * `submit_req(req)` inside a task: the engine processes the request,
     * and each request it hands its scheduler meanwhile is spawned here, in
     * order; what processing raised is returned.
     */
    method Execute(r: Req, fetch: Req -> Result<Response, Exc>) returns (err: Option<Exc>)
      requires Valid()
      modifies this, base.engine
      ensures Valid() && logged == old(logged)
      ensures base.engine == null ==> err == Some(AttributeError) && pending == old(pending)
      ensures base.engine != null ==>
                var run := Engine.ProcessRun(old(base.engine.Cfg()), old(base.engine.spiders), fetch, r);
                && base.engine.trace == old(base.engine.trace) + run.trace + [Engine.ProcessEvent(r.spider, run.raised)]
                && pending == old(pending) + Handed(run.trace)
                && err == run.raised
      ensures base.engine != null ==> base.engine.Cfg() == old(base.engine.Cfg()) && base.engine.spiders == old(base.engine.spiders)
    {
      var mark := if base.engine != null then |base.engine.trace| else 0;
      err := base.SubmitReq(r, fetch);
      if base.engine != null {
        ghost var run := Engine.ProcessRun(old(base.engine.Cfg()), old(base.engine.spiders), fetch, r);
        Spawn(base.engine.trace[mark..], run.trace, Engine.ProcessEvent(r.spider, run.raised));
        pending := pending + Handed(base.engine.trace[mark..]);
      }
    }
  }

  // ---------------------------------------------------------------- the periodic scheduler: the worker and its jobs

  /** A job as given to the worker's `submit_job`: function name, key, workload, and `sched_at` if given. */
  datatype Submission = Submission(func: string, key: string, workload: seq<Utf8.Byte>, schedAt: Option<int>)

  /** The periodic worker, as far as the scheduler uses it: the functions it serves and the jobs it accepted. */
  class Worker {
    var funcs: seq<string>
    var jobs: seq<Submission>

    constructor ()
      ensures funcs == [] && jobs == []
    {
      funcs := [];
      jobs := [];
    }

    /** `add_func(name, f)`: the worker serves `name`. */
    method AddFunc(name: string)
      modifies this
      ensures funcs == old(funcs) + [name] && jobs == old(jobs)
    {
      funcs := funcs + [name];
    }

    /** `submit_job(...)`: raises `failure` if there is one, else accepts the job. */
    method SubmitJob(s: Submission, failure: Option<Exc>) returns (err: Option<Exc>)
      modifies this
      ensures err == failure
      ensures jobs == old(jobs) + (if failure.None? then [s] else []) && funcs == old(funcs)
    {
      if failure.None? {
        jobs := jobs + [s];
      }
      err := failure;
    }
  }

  /** A job the worker runs: its workload as handed back, its run count, and how it was settled. */
  class Job {
    const workload: Utf8.Payload
    const count: int
    var doneCalls: nat
    var laterCalls: seq<(int, int)>

    constructor (workload: Utf8.Payload, count: int)
      ensures this.workload == workload && this.count == count && doneCalls == 0 && laterCalls == []
    {
      this.workload := workload;
      this.count := count;
      doneCalls := 0;
      laterCalls := [];
    }

    /** `job.done()`. */
    method Done()
      modifies this
      ensures doneCalls == old(doneCalls) + 1 && laterCalls == old(laterCalls)
    {
      doneCalls := doneCalls + 1;
    }

    /** `job.sched_later(delay, count)`. */
    method SchedLater(delay: int, count: int)
      modifies this
      ensures laterCalls == old(laterCalls) + [(delay, count)] && doneCalls == old(doneCalls)
    {
      laterCalls := laterCalls + [(delay, count)];
    }
  }

  // ---------------------------------------------------------------- the periodic scheduler: retry bookkeeping

  /**
   * The first attempt, from `lo` on and below `n`, that the worker
   * accepts (`failures(i)` is what attempt `i` raises); `n`, or `lo` if
   * that is larger, when it accepts none of them.
   */
  function FirstAccepted(failures: nat -> Option<Exc>, lo: nat, n: int): (a: nat)
    ensures lo <= a
    ensures a < n ==> failures(a).None?
    ensures a >= n ==> a == lo || a == n
    ensures forall k :: lo <= k < a ==> failures(k).Some?
    decreases n - lo
  {
    if lo >= n then lo else if failures(lo).None? then lo else FirstAccepted(failures, lo + 1, n)
  }

  /** Any index that fails before it and is accepted at it, or runs out, is the first accepted one. */
  lemma {:induction false} FirstAcceptedAt(failures: nat -> Option<Exc>, lo: nat, n: int, i: nat)
    requires lo <= i
    requires forall k :: lo <= k < i ==> failures(k).Some?
    requires (i < n && failures(i).None?) || (i >= n && (i == lo || i == n))
    ensures FirstAccepted(failures, lo, n) == i
    decreases i - lo
  {
    if lo < i {
      FirstAcceptedAt(failures, lo + 1, n, i);
    }
  }

  /** An accepted attempt at `i` bounds the first accepted one. */
  lemma {:induction false} FirstAcceptedBelow(failures: nat -> Option<Exc>, lo: nat, n: int, i: nat)
    requires lo <= i < n && failures(i).None?
    ensures FirstAccepted(failures, lo, n) <= i
    decreases i - lo
  {
    if lo < i && failures(lo).Some? {
      FirstAcceptedBelow(failures, lo + 1, n, i);
    }
  }

  /** How many attempts were made: up to and including the accepted one, or all of them. */
  function Attempts(failures: nat -> Option<Exc>, n: int): (m: nat)
    ensures n <= 0 ==> m == 0
    ensures n > 0 ==> 1 <= m <= n
    ensures FirstAccepted(failures, 0, n) < n ==> m == FirstAccepted(failures, 0, n) + 1
  {
    var a := FirstAccepted(failures, 0, n);
    if a < n then a + 1 else a
  }

  /** What the failed attempts before the `i`-th raised, in order. */
  function FailedBefore(failures: nat -> Option<Exc>, i: nat): (fs: seq<Exc>)
    requires forall k :: 0 <= k < i ==> failures(k).Some?
    ensures |fs| == i
    ensures forall k :: 0 <= k < i ==> fs[k] == failures(k).value
  {
    seq(i, k requires 0 <= k < i => failures(k).value)
  }

  /** The pauses before the first `m` attempts, in hundredths of a second: 0, 1, 2, ... */
  function Ramp(m: nat): (p: seq<int>)
    ensures |p| == m && forall k :: 0 <= k < m ==> p[k] == k
  {
    seq(m, k => k)
  }

  /**
   * The retry loop never makes more than `n` attempts, and submits the
   * job at most once: exactly when some attempt below `n` is accepted,
   * and then after every earlier attempt failed.
   */
  lemma AttemptsBounded(failures: nat -> Option<Exc>, n: int)
    ensures Attempts(failures, n) <= if n < 0 then 0 else n
    ensures FirstAccepted(failures, 0, n) < n <==> exists i :: 0 <= i < n && failures(i).None?
    ensures Attempts(failures, n) == n || Attempts(failures, n) == 0 || failures(Attempts(failures, n) - 1).None?
  {
    var a := FirstAccepted(failures, 0, n);
    if exists i :: 0 <= i < n && failures(i).None? {
      var i :| 0 <= i < n && failures(i).None?;
      FirstAcceptedBelow(failures, 0, n, i);
    }
  }

  // ---------------------------------------------------------------- the periodic scheduler: item workloads

  /** Whether jobs carry `sched_at`: request jobs do not; item jobs take the clock reading `now(i)` of attempt `i` plus a delay. */
  datatype Timing = Untimed | Timed(now: nat -> int, delay: int)

  /** `sched_at` for attempt `i`. */
  function SchedAt(t: Timing, i: nat): Option<int>
  {
    match t
    case Untimed => None
    case Timed(now, delay) => Some(now(i) + delay)
  }

  /** `getattr(item, 'later', None)` when it is an int: Python's bools are ints, anything else adds nothing. */
  function Later(rec: Item.Record): int
  {
    match Dicts.Lookup(rec.dict, "later")
    case Some(IntV(n)) => n
    case Some(BoolV(b)) => if b then 1 else 0
    case _ => 0
  }

  /** The delay is the `later` value exactly when that is an int. */
  lemma LaterRules(rec: Item.Record)
    ensures Dicts.Lookup(rec.dict, "later").Some? && Dicts.Lookup(rec.dict, "later").value.IntV? ==>
              Later(rec) == Dicts.Lookup(rec.dict, "later").value.i
    ensures Dicts.Lookup(rec.dict, "later") == Some(BoolV(true)) ==> Later(rec) == 1
    ensures Dicts.Lookup(rec.dict, "later").None? ==> Later(rec) == 0
    ensures Dicts.Lookup(rec.dict, "later").Some? && Dicts.Lookup(rec.dict, "later").value.StrV? ==> Later(rec) == 0
  {
  }

  /** As written, an item job carries `bytes(item)`: the UTF-8 of the packed fields, without the class name. */
  function WrittenItemWorkload(j: Json, rec: Item.Record): seq<Utf8.Byte>
  {
    Item.PackBytes(j, rec.fields, rec.dict)
  }

  /** As written, `submit_item` hands the workload straight to `load_item`, which splits it with a text separator. */
  function WrittenJobItem(j: Json, p: Utf8.Payload, resolve: (string, string) -> Item.Resolved): Result<Item.Record, Exc>
  {
    match p
    case BytesPayload(_) => Err(TypeError)
    case TextPayload(s) => Item.LoadItem(j, s, resolve)
  }

  /**
   * As written, no item job loads: handed back as bytes, `bytes.split`
   * with a text separator raises TypeError; handed back as the decoded
   * text, there is no class-name separator to split at, so ValueError.
   */
  lemma WrittenItemJobFails(j: Json, rec: Item.Record, resolve: (string, string) -> Item.Resolved)
    requires Lawful(j) && Item.WellDeclared(rec.fields) && Dicts.DistinctKeys(rec.dict)
    requires Item.Separable(rec.dict, Item.RecordSep[0])
    ensures WrittenJobItem(j, Utf8.BytesPayload(WrittenItemWorkload(j, rec)), resolve) == Err(TypeError)
    ensures Utf8.Decode(WrittenItemWorkload(j, rec)).Some?
    ensures WrittenJobItem(j, Utf8.TextPayload(Utf8.Decode(WrittenItemWorkload(j, rec)).value), resolve) == Err(ValueError)
  {
    var text := Item.Pack(j, rec.fields, rec.dict);
    Utf8.DecodeEncode(text);
    Item.PackAvoids(j, rec.fields, rec.dict, Item.RecordSep[0]);
    Item.LoadPartsWithoutSeparator(text);
  }

  /** An item job carries the UTF-8 of `dump_item(item)`: class name, separator, packed fields. */
  function ItemWorkload(j: Json, rec: Item.Record): seq<Utf8.Byte>
  {
    Utf8.Encode(Item.DumpItem(j, Item.ItemObject(rec)).value)
  }

  /** The corrected workload is the one as written behind the class-name header that `load_item` splits at. */
  lemma WorkloadHeader(j: Json, rec: Item.Record)
    ensures ItemWorkload(j, rec) == Utf8.Encode(rec.className + Item.RecordSep) + WrittenItemWorkload(j, rec)
  {
    Utf8.EncodeAppend(rec.className + Item.RecordSep, Item.Pack(j, rec.fields, rec.dict));
  }

  /** `submit_item` decodes a bytes workload before `load_item`. */
  function JobItem(j: Json, p: Utf8.Payload, resolve: (string, string) -> Item.Resolved): Result<Item.Record, Exc>
  {
    match Utf8.AsText(p)
    case None => Err(UnicodeDecodeError)
    case Some(s) => Item.LoadItem(j, s, resolve)
  }

  /**
   * An item job loads back to the item pushed, whether the worker hands
   * the workload back as bytes or as text: same class, same fields, the
   * dict `load_item` rebuilds from the packed fields.
   */
  lemma ItemJobRoundTrip(j: Json, rec: Item.Record, resolve: (string, string) -> Item.Resolved)
    requires Lawful(j) && Item.WellDeclared(rec.fields) && Dicts.DistinctKeys(rec.dict)
    requires Item.Separable(rec.dict, Item.NullChar) && Item.Separable(rec.dict, Item.RecordSep[0])
    requires Item.IntsTyped(rec.fields, rec.dict)
    requires Item.RecordSep[0] !in rec.className
    requires resolve(Utils.SplitDotted(rec.className).0, Utils.SplitDotted(rec.className).1) == Item.ItemClassFound(rec.fields)
    ensures Item.UnpackText(j, rec.fields, Item.Pack(j, rec.fields, rec.dict)).Ok?
    ensures JobItem(j, Utf8.BytesPayload(ItemWorkload(j, rec)), resolve) ==
              Ok(Item.Record(rec.className, rec.fields,
                             Dicts.UpdateDict([], Item.CleanAll(Item.UnpackText(j, rec.fields, Item.Pack(j, rec.fields, rec.dict)).value))))
    ensures JobItem(j, Utf8.TextPayload(Item.DumpItem(j, Item.ItemObject(rec)).value), resolve) ==
              JobItem(j, Utf8.BytesPayload(ItemWorkload(j, rec)), resolve)
  {
    Item.LoadDumpedItem(j, rec, resolve);
    Utf8.DecodeEncode(Item.DumpItem(j, Item.ItemObject(rec)).value);
  }

  // ---------------------------------------------------------------- the periodic scheduler

  /** The periodic scheduler as the engine sees it once initialised: its pushes never raise. */
  const PeriodicPort: Engine.SchedPort :=
    Engine.SchedPort((r: Req) => None, (item: Item.Record, ps: seq<Engine.Pipeline>) => None)

  /** A job settles (`done()`) after success or IgnoreRequest; anything else is rescheduled. */
  predicate Settles(raised: Option<Exc>)
  {
    raised.None? || raised.value == IgnoreRequest
  }

  class PeriodicScheduler {
    const base: BaseSched.BaseScheduler
    /** `_worker`; absent until `init`. */
    var worker: Worker?
    /** `_retry_count`. */
    var retryCount: int
    /** What `logger.exception` received, in order. */
    var logged: seq<Exc>
    /** The pause before each submit attempt, in hundredths of a second. */
    var pauses: seq<int>

    constructor ()
      ensures fresh(base) && base.engine == null && !base.isRunning
      ensures worker == null && logged == [] && pauses == []
    {
      base := new BaseSched.BaseScheduler();
      worker := null;
      retryCount := 0;
      logged := [];
      pauses := [];
    }

    /** `engine.set_sched(sched)` for this scheduler. */
    method Attach(e: Engine.Engine)
      modifies base, e
      ensures base.engine == e && e.sched == Some(PeriodicPort)
      ensures e.spiders == old(e.spiders) && e.pipelines == old(e.pipelines)
      ensures e.middlewares == old(e.middlewares) && e.trace == old(e.trace)
    {
      base.Attach(e, PeriodicPort);
    }

    /**
     * `init(worker, submit_req=True, submit_item=True, retry_count=10)`:
     * the worker and retry count are kept, and the worker serves each job
     * function whose flag is set.
     */
    method Init(w: Worker, submitReq: bool := true, submitItem: bool := true, retryCount: int := 10)
      modifies this, w
      ensures worker == w && this.retryCount == retryCount
      ensures w.funcs == old(w.funcs) + (if submitReq then ["submit_req"] else []) + (if submitItem then ["submit_item"] else [])
      ensures w.jobs == old(w.jobs) && logged == old(logged) && pauses == old(pauses)
    {
      worker := w;
      this.retryCount := retryCount;
      if submitReq {
        w.AddFunc("submit_req");
      }
      if submitItem {
        w.AddFunc("submit_item");
      }
    }

    /**
     * The retry loop of `push_req` and `push_item`: attempt `i` pauses
     * `i` hundredths, then submits; the first accepted attempt ends the
     * loop, and each failure is logged.
     */
    method Submit(func: string, key: string, data: seq<Utf8.Byte>, timing: Timing, failures: nat -> Option<Exc>)
      requires worker != null
      modifies this, worker
      ensures worker == old(worker) && retryCount == old(retryCount) && worker.funcs == old(worker.funcs)
      ensures var a := FirstAccepted(failures, 0, retryCount);
              && worker.jobs == old(worker.jobs) + (if a < retryCount then [Submission(func, key, data, SchedAt(timing, a))] else [])
              && logged == old(logged) + FailedBefore(failures, a)
              && pauses == old(pauses) + Ramp(Attempts(failures, retryCount))
    {
      var i := 0;
      while i < retryCount
        invariant worker == old(worker) && retryCount == old(retryCount) && worker.funcs == old(worker.funcs)
        invariant i == 0 || i <= retryCount
        invariant forall k :: 0 <= k < i ==> failures(k).Some?
        invariant worker.jobs == old(worker.jobs)
        invariant logged == old(logged) + FailedBefore(failures, i)
        invariant pauses == old(pauses) + Ramp(i)
      {
        pauses := pauses + [i];
        var e := worker.SubmitJob(Submission(func, key, data, SchedAt(timing, i)), failures(i));
        if e.None? {
          FirstAcceptedAt(failures, 0, retryCount, i);
          assert Ramp(i) + [i] == Ramp(i + 1);
          return;
        }
        assert FailedBefore(failures, i) + [e.value] == FailedBefore(failures, i + 1);
        assert Ramp(i) + [i] == Ramp(i + 1);
        logged := logged + [e.value];
        i := i + 1;
      }
      FirstAcceptedAt(failures, 0, retryCount, i);
    }

    /**
     * `push_req(req)`: the job `'submit_req'` under the request's hash
     * `key` with workload `bytes(req)`, retried as above; nothing is
     * raised once `init` has run, and before it the missing retry count
     * raises AttributeError.
     */
    method PushReq(j: Json, r: Req, key: string, failures: nat -> Option<Exc>) returns (err: Option<Exc>)
      modifies this, worker
      ensures worker == old(worker) && retryCount == old(retryCount)
      ensures old(worker) == null ==> err == Some(AttributeError) && logged == old(logged) && pauses == old(pauses)
      ensures old(worker) != null ==> err == None && err == PeriodicPort.pushReq(r) && worker.funcs == old(worker.funcs)
      ensures old(worker) != null ==>
                var a := FirstAccepted(failures, 0, retryCount);
                worker.jobs == old(worker.jobs) + (if a < retryCount then [Submission("submit_req", key, ToBytes(j, r), None)] else [])
      ensures old(worker) != null ==>
                && logged == old(logged) + FailedBefore(failures, FirstAccepted(failures, 0, retryCount))
                && pauses == old(pauses) + Ramp(Attempts(failures, retryCount))
    {
      if worker == null {
        return Some(AttributeError);
      }
      var data := ToBytes(j, r);
      Submit("submit_req", key, data, Untimed, failures);
      err := None;
    }

    /**
     * `push_item(item)`: the job `'submit_item'` under the item's hash
     * `key`, scheduled at the clock reading of its attempt (`now(i)`)
     * plus the item's `later` delay, retried as above. The workload is the
     * dumped item, which `submit_item` can load.
     */
    method PushItem(j: Json, item: Item.Record, key: string, now: nat -> int, failures: nat -> Option<Exc>) returns (err: Option<Exc>)
      modifies this, worker
      ensures worker == old(worker) && retryCount == old(retryCount)
      ensures old(worker) == null ==> err == Some(AttributeError) && logged == old(logged) && pauses == old(pauses)
      ensures old(worker) != null ==> err == None && err == PeriodicPort.pushItem(item, []) && worker.funcs == old(worker.funcs)
      ensures old(worker) != null ==>
                var a := FirstAccepted(failures, 0, retryCount);
                worker.jobs == old(worker.jobs) +
                  (if a < retryCount then [Submission("submit_item", key, ItemWorkload(j, item), SchedAt(Timed(now, Later(item)), a))] else [])
      ensures old(worker) != null ==>
                && logged == old(logged) + FailedBefore(failures, FirstAccepted(failures, 0, retryCount))
                && pauses == old(pauses) + Ramp(Attempts(failures, retryCount))
    {
      if worker == null {
        return Some(AttributeError);
      }
      var data := ItemWorkload(j, item);
      var delay := Later(item);
      Submit("submit_item", key, data, Timed(now, delay), failures);
      err := None;
    }

    /**
     * `submit_req(job)`: the request is rebuilt from the workload, and a
     * failure there propagates before the job is touched. Otherwise the
     * engine processes it; the job is `done()` after success or
     * IgnoreRequest, and otherwise `sched_later(count + 10, 1)`, with any
     * exception but RetryRequest logged first.
     */
    method SubmitReq(j: Json, job: Job, fetch: Req -> Result<Response, Exc>) returns (err: Option<Exc>)
      modifies this, job, base.engine
      ensures worker == old(worker) && retryCount == old(retryCount) && pauses == old(pauses)
      ensures BuildValue(j, job.workload).Err? ==>
                err == Some(BuildValue(j, job.workload).error) && logged == old(logged) &&
                job.doneCalls == old(job.doneCalls) && job.laterCalls == old(job.laterCalls) &&
                (base.engine != null ==> base.engine.trace == old(base.engine.trace))
      ensures BuildValue(j, job.workload).Ok? ==>
                var r := BuildValue(j, job.workload).value;
                var raised := if base.engine == null then Some(AttributeError)
                              else Engine.ProcessRun(old(base.engine.Cfg()), old(base.engine.spiders), fetch, r).raised;
                && err == None
                && logged == old(logged) + Complaint(raised)
                && (Settles(raised) ==> job.doneCalls == old(job.doneCalls) + 1 && job.laterCalls == old(job.laterCalls))
                && (!Settles(raised) ==> job.doneCalls == old(job.doneCalls) && job.laterCalls == old(job.laterCalls) + [(job.count + 10, 1)])
                && (base.engine != null ==>
                      base.engine.trace == old(base.engine.trace) +
                        Engine.ProcessRun(old(base.engine.Cfg()), old(base.engine.spiders), fetch, r).trace +
                        [Engine.ProcessEvent(r.spider, raised)])
      ensures base.engine != null ==> base.engine.Cfg() == old(base.engine.Cfg()) && base.engine.spiders == old(base.engine.spiders)
    {
      var built := BuildValue(j, job.workload);
      if built.Err? {
        return Some(built.error);
      }
      var raised := base.SubmitReq(built.value, fetch);
      if Settles(raised) {
        job.Done();
      } else {
        if raised.value != RetryRequest {
          logged := logged + [raised.value];
        }
        job.SchedLater(job.count + 10, 1);
      }
      err := None;
    }

    /**
     * `submit_item(job)`: the item is loaded from the workload and run
     * through the engine's pipelines; the job is `done()` only when both
     * return normally, and an exception from either propagates.
     */
    method SubmitItem(j: Json, job: Job, resolve: (string, string) -> Item.Resolved) returns (err: Option<Exc>)
      modifies job
      ensures job.laterCalls == old(job.laterCalls)
      ensures JobItem(j, job.workload, resolve).Err? ==>
                err == Some(JobItem(j, job.workload, resolve).error) && job.doneCalls == old(job.doneCalls)
      ensures JobItem(j, job.workload, resolve).Ok? ==>
                err == (if base.engine == null then Some(AttributeError)
                        else Engine.ItemOutcome(base.engine.pipelines, JobItem(j, job.workload, resolve).value))
      ensures job.doneCalls == if err.None? then old(job.doneCalls) + 1 else old(job.doneCalls)
    {
      var item := JobItem(j, job.workload, resolve);
      if item.Err? {
        return Some(item.error);
      }
      err := base.SubmitItem(item.value);
      if err.None? {
        job.Done();
      }
    }
  }
}
