/**
 * `grapy/core/engine.py`: the engine holds the spider registry, the
 * middlewares, the item pipelines and the scheduler. It runs a request
 * through the `before_request` middlewares, fetches it, runs the response
 * through the `after_request` middlewares, calls the spider's callback and
 * pushes what the callback yields: requests to the scheduler (after the
 * `before_push_request` middlewares), items to the scheduler's item path.
 *
 * The engine's observable behaviour is recorded in `trace`: what it hands
 * to the scheduler, what it logs, and the event `process` emits. The
 * scheduler is seen through `SchedPort`, which says what each push raises;
 * fetching is a parameter of `Process`.
 */
module Engine {
  import opened Wrappers
  import opened Py
  import opened Exceptions
  import opened BaseSpider
  import BaseRequest
  import Item

  type Req = BaseRequest.Req
  type Record = Item.Record

  // ---------------------------------------------------------------- hooks

  /** The one middleware step `process_middleware` takes: absent hook, None result, new object, or raise. */
  function Apply<T>(hook: Option<T -> Step<T>>, obj: T): Result<T, Exc>
  {
    match hook
    case None => Ok(obj)
    case Some(f) =>
      match f(obj)
      case Raised(e) => Err(e)
      case Returned(None) => Ok(obj)
      case Returned(Some(o)) => Ok(o)
  }

  /**
   * `process_middleware(name, obj)` over the hooks named `name`, in
   * middleware order (`None` where a middleware lacks the hook): each
   * present hook gets the current object and replaces it with its result
   * unless that result is None; a raising hook ends the chain.
   */
  function Chain<T>(hooks: seq<Option<T -> Step<T>>>, obj: T): Result<T, Exc>
    decreases |hooks|
  {
    if hooks == [] then Ok(obj)
    else
      match Apply(hooks[0], obj)
      case Err(e) => Err(e)
      case Ok(o) => Chain(hooks[1..], o)
  }

  /** Running two lists of hooks is running the first, then the second on its result. */
  lemma {:induction false} ChainAppend<T>(a: seq<Option<T -> Step<T>>>, b: seq<Option<T -> Step<T>>>, obj: T)
    ensures Chain(a + b, obj) == match Chain(a, obj) case Err(e) => Err(e) case Ok(o) => Chain(b, o)
    decreases |a|
  {
    if a != [] {
      assert (a + b)[0] == a[0];
      assert (a + b)[1..] == a[1..] + b;
      match Apply(a[0], obj)
      case Err(_) =>
      case Ok(o) => ChainAppend(a[1..], b, o);
    } else {
      assert a + b == b;
    }
  }

  /** With no middleware having the hook, the object comes back unchanged. */
  lemma {:induction false} ChainAbsent<T>(hooks: seq<Option<T -> Step<T>>>, obj: T)
    requires forall i :: 0 <= i < |hooks| ==> hooks[i].None?
    ensures Chain(hooks, obj) == Ok(obj)
    decreases |hooks|
  {
    if hooks != [] {
      assert forall i :: 0 <= i < |hooks[1..]| ==> hooks[1..][i] == hooks[i + 1];
      ChainAbsent(hooks[1..], obj);
    }
  }

  /** A hook that raises on the object it is given ends the chain with its exception. */
  lemma ChainHalts<T>(a: seq<Option<T -> Step<T>>>, f: T -> Step<T>, b: seq<Option<T -> Step<T>>>, obj: T, cur: T, e: Exc)
    requires Chain(a, obj) == Ok(cur) && f(cur) == Raised(e)
    ensures Chain(a + [Some(f)] + b, obj) == Err(e)
  {
    ChainAppend(a, [Some(f)] + b, obj);
    assert a + [Some(f)] + b == a + ([Some(f)] + b);
  }

  /** A hook's result replaces the object only when it is not None. */
  lemma ChainAdopts<T>(a: seq<Option<T -> Step<T>>>, f: T -> Step<T>, b: seq<Option<T -> Step<T>>>, obj: T, cur: T)
    requires Chain(a, obj) == Ok(cur) && f(cur).Returned?
    ensures Chain(a + [Some(f)] + b, obj) == Chain(b, if f(cur).result.Some? then f(cur).result.value else cur)
  {
    ChainAppend(a, [Some(f)] + b, obj);
    assert a + [Some(f)] + b == a + ([Some(f)] + b);
    assert ([Some(f)] + b)[1..] == b;
  }

  /** The hooks a middleware object may have, one per phase. */
  datatype Middleware = Middleware(
    beforeRequest: Option<Req -> Step<Req>>,
    afterRequest: Option<Response -> Step<Response>>,
    beforePushRequest: Option<Req -> Step<Req>>)

  function BeforeRequestHooks(mids: seq<Middleware>): seq<Option<Req -> Step<Req>>>
  {
    seq(|mids|, i requires 0 <= i < |mids| => mids[i].beforeRequest)
  }

  function AfterRequestHooks(mids: seq<Middleware>): seq<Option<Response -> Step<Response>>>
  {
    seq(|mids|, i requires 0 <= i < |mids| => mids[i].afterRequest)
  }

  function BeforePushHooks(mids: seq<Middleware>): seq<Option<Req -> Step<Req>>>
  {
    seq(|mids|, i requires 0 <= i < |mids| => mids[i].beforePushRequest)
  }

  // ---------------------------------------------------------------- pipelines

  /**
   * A pipeline stage: an object with a `process` method, a plain function,
   * or anything else, which `process_item` passes over.
   */
  datatype Pipeline =
    | Processor(process: Record -> Step<Record>)
    | PlainFunction(call: Record -> Step<Record>)
    | Inert

  function StageHook(p: Pipeline): Option<Record -> Step<Record>>
  {
    match p
    case Processor(f) => Some(f)
    case PlainFunction(f) => Some(f)
    case Inert => None
  }

  function PipelineHooks(ps: seq<Pipeline>): (hs: seq<Option<Record -> Step<Record>>>)
    ensures |hs| == |ps|
    ensures forall i :: 0 <= i < |ps| ==> hs[i] == StageHook(ps[i])
  {
    seq(|ps|, i requires 0 <= i < |ps| => StageHook(ps[i]))
  }

  /**
   * What `process_item` raises: the stages run in order on the item, each
   * non-None result replacing it; the final item is not returned.
   */
  function ItemOutcome(ps: seq<Pipeline>, item: Record): Option<Exc>
  {
    match Chain(PipelineHooks(ps), item)
    case Err(e) => Some(e)
    case Ok(_) => None
  }

  /** A stage that raises (a DropItem, say) halts the pipeline: later stages do not matter. */
  lemma ItemOutcomeHalts(a: seq<Pipeline>, p: Pipeline, b: seq<Pipeline>, item: Record, cur: Record, e: Exc)
    requires Chain(PipelineHooks(a), item) == Ok(cur)
    requires StageHook(p).Some? && StageHook(p).value(cur) == Raised(e)
    ensures ItemOutcome(a + [p] + b, item) == Some(e)
  {
    assert PipelineHooks(a + [p] + b) == PipelineHooks(a) + [StageHook(p)] + PipelineHooks(b);
    ChainHalts(PipelineHooks(a), StageHook(p).value, PipelineHooks(b), item, cur, e);
  }

  /** Stages that are neither processors nor functions are passed over. */
  lemma ItemOutcomeSkipsInert(a: seq<Pipeline>, b: seq<Pipeline>, item: Record)
    ensures ItemOutcome(a + [Inert] + b, item) == ItemOutcome(a + b, item)
  {
    var ha, hb := PipelineHooks(a), PipelineHooks(b);
    assert PipelineHooks(a + [Inert] + b) == ha + ([None] + hb);
    assert PipelineHooks(a + b) == ha + hb;
    ChainAppend(ha, [None] + hb, item);
    ChainAppend(ha, hb, item);
    assert ([None] + hb)[1..] == hb;
  }

  // ---------------------------------------------------------------- the scheduler as the engine sees it

  /**
   * What the scheduler's `push_req` and `push_item` raise, if anything;
   * `push_item` is given the engine's pipelines, which the base
   * scheduler's item path runs.
   */
  datatype SchedPort = SchedPort(
    pushReq: Req -> Option<Exc>,
    pushItem: (Record, seq<Pipeline>) -> Option<Exc>)

  /** What the engine does that can be observed. */
  datatype Effect =
    | SchedReq(req: Req)                               // `sched.push_req(req)` was called
    | SchedItem(item: Record)                          // `sched.push_item(item)` was called
    | Logged(exc: Exc)                                 // `logger.exception(e)`
    | ProcessEvent(spider: Value, raised: Option<Exc>) // the event `process` emits

  /** The parts of the engine's state that pushing reads. */
  datatype Setup = Setup(mids: seq<Middleware>, pipelines: seq<Pipeline>, sched: Option<SchedPort>)

  function LogUnless(e: Exc, quiet: Exc -> bool): seq<Effect>
  {
    if quiet(e) then [] else [Logged(e)]
  }

  predicate IsIgnore(e: Exc)
  {
    e == IgnoreRequest
  }

  predicate IsItemRejection(e: Exc)
  {
    e == DropItem || e == ItemError
  }

  /**
   * `push_req(req)`: the `before_push_request` middlewares, then the
   * scheduler; an IgnoreRequest from either is swallowed, any other
   * exception is logged and not raised. Without a scheduler the call
   * fails with AttributeError, which is logged.
   */
  function PushReqTrace(cfg: Setup, r: Req): seq<Effect>
  {
    match Chain(BeforePushHooks(cfg.mids), r)
    case Err(e) => LogUnless(e, IsIgnore)
    case Ok(r2) =>
      match cfg.sched
      case None => [Logged(AttributeError)]
      case Some(s) =>
        [SchedReq(r2)] + match s.pushReq(r2) case None => [] case Some(e) => LogUnless(e, IsIgnore)
  }

  /**
   * `push_item(item)`: the scheduler's item path; DropItem and ItemError
   * are swallowed, any other exception is logged and not raised.
   */
  function PushItemTrace(cfg: Setup, item: Record): seq<Effect>
  {
    match cfg.sched
    case None => [Logged(AttributeError)]
    case Some(s) =>
      [SchedItem(item)] + match s.pushItem(item, cfg.pipelines) case None => [] case Some(e) => LogUnless(e, IsItemRejection)
  }

  /**
   * `push_req` never logs an IgnoreRequest, and when the middlewares pass
   * the request and a scheduler is set, it hands the scheduler exactly the
   * middlewares' result, once, and logs at most the scheduler's exception.
   */
  lemma PushReqSpec(cfg: Setup, r: Req)
    ensures Logged(IgnoreRequest) !in PushReqTrace(cfg, r)
    ensures Chain(BeforePushHooks(cfg.mids), r).Ok? && cfg.sched.Some? ==>
              var r2 := Chain(BeforePushHooks(cfg.mids), r).value;
              var t := PushReqTrace(cfg, r);
              && t[0] == SchedReq(r2)
              && t[1..] == (match cfg.sched.value.pushReq(r2) case None => [] case Some(e) => if e == IgnoreRequest then [] else [Logged(e)])
    ensures Chain(BeforePushHooks(cfg.mids), r).Err? ==>
              forall k :: 0 <= k < |PushReqTrace(cfg, r)| ==> PushReqTrace(cfg, r)[k].Logged?
  {
  }

  /**
   * `push_item` never logs a DropItem or an ItemError; with a scheduler set
   * it hands the item over once and logs at most the other exceptions.
   */
  lemma PushItemSpec(cfg: Setup, item: Record)
    ensures Logged(DropItem) !in PushItemTrace(cfg, item) && Logged(ItemError) !in PushItemTrace(cfg, item)
    ensures cfg.sched.Some? ==>
              var t := PushItemTrace(cfg, item);
              var e := cfg.sched.value.pushItem(item, cfg.pipelines);
              && t[0] == SchedItem(item)
              && t[1..] == (if e.None? || e.value == DropItem || e.value == ItemError then [] else [Logged(e.value)])
  {
  }

  // ---------------------------------------------------------------- flattening callback output

  /** A request or an item found in a callback's output. */
  datatype Leaf = ReqLeaf(req: Req) | ItemLeaf(item: Record)

  /**
   * The leaves of a callback's output in order, up to the first value that
   * is neither request, item nor list (`complete` is false when there was
   * one: `process_response_item` raises there).
   */
  datatype Flat = Flat(leaves: seq<Leaf>, complete: bool)

  function FlattenOut(o: Out): Flat
    decreases o, 1
  {
    match o
    case OutReq(r) => Flat([ReqLeaf(r)], true)
    case OutItem(x) => Flat([ItemLeaf(x)], true)
    case OutList(xs) => FlattenAll(xs)
    case OutOther => Flat([], false)
  }

  function FlattenAll(outs: seq<Out>): Flat
    decreases outs, 0
  {
    if outs == [] then Flat([], true)
    else
      var head := FlattenOut(outs[0]);
      if !head.complete then head
      else
        var tail := FlattenAll(outs[1..]);
        Flat(head.leaves + tail.leaves, tail.complete)
  }

  /** Whether a value of unknown type occurs anywhere in the output. */
  predicate HasOther(o: Out)
  {
    match o
    case OutOther => true
    case OutList(xs) => exists i :: 0 <= i < |xs| && HasOther(xs[i])
    case _ => false
  }

  /** Flattening concatenates: the leaves of `a`, then, if `a` was complete, those of `b`. */
  lemma {:induction false} FlattenAppend(a: seq<Out>, b: seq<Out>)
    ensures FlattenAll(a + b) ==
              if FlattenAll(a).complete then Flat(FlattenAll(a).leaves + FlattenAll(b).leaves, FlattenAll(b).complete)
              else FlattenAll(a)
  {
    if a == [] {
      assert a + b == b;
      assert [] + FlattenAll(b).leaves == FlattenAll(b).leaves;
    } else {
      var ab := a + b;
      assert ab[0] == a[0];
      assert ab[1..] == a[1..] + b;
      var head := FlattenOut(a[0]);
      if head.complete {
        FlattenAppend(a[1..], b);
        var ta, tb := FlattenAll(a[1..]), FlattenAll(b);
        assert FlattenAll(a) == Flat(head.leaves + ta.leaves, ta.complete);
        if ta.complete {
          assert head.leaves + (ta.leaves + tb.leaves) == head.leaves + ta.leaves + tb.leaves;
        }
      }
    }
  }

  /** One output flattens as itself would. */
  lemma FlattenSingle(o: Out)
    ensures FlattenAll([o]) == FlattenOut(o)
  {
    assert [o][1..] == [];
    assert FlattenOut(o).leaves + [] == FlattenOut(o).leaves;
  }

  /** A list nested in the output contributes its leaves where it stands. */
  lemma FlattenNested(a: seq<Out>, xs: seq<Out>, b: seq<Out>)
    ensures FlattenAll(a + [OutList(xs)] + b) == FlattenAll(a + xs + b)
  {
    FlattenAppend(a + [OutList(xs)], b);
    FlattenAppend(a, [OutList(xs)]);
    FlattenSingle(OutList(xs));
    FlattenAppend(a + xs, b);
    FlattenAppend(a, xs);
  }

  /** The output is flattened completely exactly when no value of unknown type occurs in it. */
  lemma {:induction false} FlattenCompleteIff(outs: seq<Out>)
    ensures FlattenAll(outs).complete <==> forall i :: 0 <= i < |outs| ==> !HasOther(outs[i])
    decreases outs, 0
  {
    if outs != [] {
      FlattenOutCompleteIff(outs[0]);
      FlattenCompleteIff(outs[1..]);
      assert forall i :: 1 <= i < |outs| ==> outs[i] == outs[1..][i - 1];
    }
  }

  lemma {:induction false} FlattenOutCompleteIff(o: Out)
    ensures FlattenOut(o).complete <==> !HasOther(o)
    decreases o, 1
  {
    if o.OutList? {
      FlattenCompleteIff(o.outs);
    }
  }

  /** `item.spider` filled only when None, `item.group` copied from the originating request. */
  function Adopt(r: Req, spiderName: Value, group: Value): Req
  {
    r.(spider := if r.spider.NoneV? then spiderName else r.spider, group := group)
  }

  /** Adopting twice is adopting once, and an adopted request has a spider whenever the spider has a name. */
  lemma AdoptSpec(r: Req, spiderName: Value, group: Value)
    ensures Adopt(Adopt(r, spiderName, group), spiderName, group) == Adopt(r, spiderName, group)
    ensures !spiderName.NoneV? ==> !Adopt(r, spiderName, group).spider.NoneV?
    ensures !r.spider.NoneV? ==> Adopt(r, spiderName, group).spider == r.spider
  {
  }

  /** The effects of a sequence of steps: each step's effects, in order. */
  function ConcatMap<A, B>(f: A -> seq<B>, xs: seq<A>): seq<B>
    decreases |xs|
  {
    if xs == [] then [] else ConcatMap(f, xs[..|xs| - 1]) + f(xs[|xs| - 1])
  }

  lemma {:induction false} ConcatMapAppend<A, B>(f: A -> seq<B>, a: seq<A>, b: seq<A>)
    ensures ConcatMap(f, a + b) == ConcatMap(f, a) + ConcatMap(f, b)
    decreases |b|
  {
    if b == [] {
      assert a + b == a;
    } else {
      var ab := a + b;
      assert ab[..|ab| - 1] == a + b[..|b| - 1];
      assert ab[|ab| - 1] == b[|b| - 1];
      ConcatMapAppend(f, a, b[..|b| - 1]);
    }
  }

  lemma ConcatMapSnoc<A, B>(f: A -> seq<B>, xs: seq<A>, i: nat)
    requires i < |xs|
    ensures ConcatMap(f, xs[..i + 1]) == ConcatMap(f, xs[..i]) + f(xs[i])
  {
    assert xs[..i + 1][..i] == xs[..i];
  }

  lemma ConcatMapSingle<A, B>(f: A -> seq<B>, x: A)
    ensures ConcatMap(f, [x]) == f(x)
  {
    assert [x][..0] == [];
  }

  /** Every effect of the whole satisfies `p` when every effect of every step does. */
  lemma {:induction false} ConcatMapAll<A, B>(f: A -> seq<B>, xs: seq<A>, p: B -> bool)
    requires forall i, k :: 0 <= i < |xs| && 0 <= k < |f(xs[i])| ==> p(f(xs[i])[k])
    ensures forall k :: 0 <= k < |ConcatMap(f, xs)| ==> p(ConcatMap(f, xs)[k])
    decreases |xs|
  {
    if xs != [] {
      var init := xs[..|xs| - 1];
      assert forall i :: 0 <= i < |init| ==> init[i] == xs[i];
      ConcatMapAll(f, init, p);
      var a, b := ConcatMap(f, init), f(xs[|xs| - 1]);
      assert forall k :: |a| <= k < |a| + |b| ==> (a + b)[k] == b[k - |a|];
    }
  }

  function LeafTrace(cfg: Setup, spiderName: Value, group: Value, leaf: Leaf): seq<Effect>
  {
    match leaf
    case ReqLeaf(r) => PushReqTrace(cfg, Adopt(r, spiderName, group))
    case ItemLeaf(x) => PushItemTrace(cfg, x)
  }

  function LeafStep(cfg: Setup, spiderName: Value, group: Value): Leaf -> seq<Effect>
  {
    leaf => LeafTrace(cfg, spiderName, group, leaf)
  }

  /** The pushes of a sequence of leaves, in order. */
  function LeavesTrace(cfg: Setup, spiderName: Value, group: Value, leaves: seq<Leaf>): seq<Effect>
  {
    ConcatMap(LeafStep(cfg, spiderName, group), leaves)
  }

  /** One more output of a callback, after outputs that flattened completely. */
  lemma OutsStep(cfg: Setup, spiderName: Value, group: Value, outs: seq<Out>, i: nat)
    requires i < |outs| && FlattenAll(outs[..i]).complete
    ensures FlattenAll(outs[..i + 1]).complete == FlattenOut(outs[i]).complete
    ensures LeavesTrace(cfg, spiderName, group, FlattenAll(outs[..i + 1]).leaves) ==
              LeavesTrace(cfg, spiderName, group, FlattenAll(outs[..i]).leaves) +
              LeavesTrace(cfg, spiderName, group, FlattenOut(outs[i]).leaves)
    ensures !FlattenOut(outs[i]).complete ==> FlattenAll(outs) == FlattenAll(outs[..i + 1])
  {
    FlattenSnoc(outs, i);
    ConcatMapAppend(LeafStep(cfg, spiderName, group), FlattenAll(outs[..i]).leaves, FlattenOut(outs[i]).leaves);
    if !FlattenOut(outs[i]).complete {
      OutsCut(outs, i + 1);
    }
  }

  /** A trace that grew by `b` after growing by `a` grew by `a + b`. */
  lemma Grown<T>(prefix: seq<T>, before: seq<T>, after: seq<T>, a: seq<T>, b: seq<T>)
    requires before == prefix + a && after == before + b
    ensures after == prefix + (a + b)
  {
  }

  /** Flattening one more output after a complete prefix appends its leaves. */
  lemma FlattenSnoc(outs: seq<Out>, i: nat)
    requires i < |outs| && FlattenAll(outs[..i]).complete
    ensures FlattenAll(outs[..i + 1]) == Flat(FlattenAll(outs[..i]).leaves + FlattenOut(outs[i]).leaves, FlattenOut(outs[i]).complete)
  {
    assert outs[..i + 1] == outs[..i] + [outs[i]];
    FlattenAppend(outs[..i], [outs[i]]);
    FlattenSingle(outs[i]);
  }

  /** Outputs after an incomplete prefix are never looked at. */
  lemma OutsCut(outs: seq<Out>, n: nat)
    requires n <= |outs| && !FlattenAll(outs[..n]).complete
    ensures FlattenAll(outs) == FlattenAll(outs[..n])
  {
    assert outs == outs[..n] + outs[n..];
    FlattenAppend(outs[..n], outs[n..]);
  }

  // ---------------------------------------------------------------- spiders

  /** The spider registry, `engine.spiders`, in insertion order. */
  type Registry = seq<(Value, Spider)>

  predicate Registered(reg: Registry, name: Value)
  {
    exists i :: 0 <= i < |reg| && reg[i].0 == name
  }

  predicate DistinctNames(reg: Registry)
  {
    forall i, j :: 0 <= i < j < |reg| ==> reg[i].0 != reg[j].0
  }

  lemma RegisteredTail(reg: Registry, name: Value)
    requires reg != []
    ensures Registered(reg, name) <==> reg[0].0 == name || Registered(reg[1..], name)
  {
    if Registered(reg, name) && reg[0].0 != name {
      var i :| 0 <= i < |reg| && reg[i].0 == name;
      assert reg[1..][i - 1] == reg[i];
    }
    if Registered(reg[1..], name) {
      var j :| 0 <= j < |reg[1..]| && reg[1..][j].0 == name;
      assert reg[j + 1] == reg[1..][j];
    }
  }

  /** `get_spider(name)`: the registered spider, or EngineError when none is registered under `name`. */
  function GetSpider(reg: Registry, name: Value): (r: Result<Spider, Exc>)
    ensures r.Ok? <==> Registered(reg, name)
    ensures r.Ok? ==> (name, r.value) in reg
    ensures r.Err? ==> r.error == EngineError("Spider[" + Str(name) + "] is not found")
  {
    if reg == [] then Err(EngineError("Spider[" + Str(name) + "] is not found"))
    else if reg[0].0 == name then Ok(reg[0].1)
    else
      RegisteredTail(reg, name);
      GetSpider(reg[1..], name)
  }

  /** `spiders[name] = spider`: an existing name keeps its place, a new one goes last. */
  function Register(reg: Registry, name: Value, sp: Spider): (r: Registry)
    ensures |r| == if Registered(reg, name) then |reg| else |reg| + 1
    ensures forall i :: 0 <= i < |reg| ==> r[i].0 == reg[i].0
    ensures !Registered(reg, name) ==> r == reg + [(name, sp)]
  {
    if reg == [] then [(name, sp)]
    else if reg[0].0 == name then [(name, sp)] + reg[1..]
    else
      RegisteredTail(reg, name);
      [reg[0]] + Register(reg[1..], name, sp)
  }

  /** After registering, the name finds the new spider and every other name what it found before. */
  lemma {:induction false} RegisterGet(reg: Registry, name: Value, sp: Spider, other: Value)
    ensures GetSpider(Register(reg, name, sp), other) == if other == name then Ok(sp) else GetSpider(reg, other)
  {
    if reg != [] && reg[0].0 != name {
      RegisterGet(reg[1..], name, sp, other);
      assert ([reg[0]] + Register(reg[1..], name, sp))[1..] == Register(reg[1..], name, sp);
    }
  }

  lemma RegisterDistinct(reg: Registry, name: Value, sp: Spider)
    requires DistinctNames(reg)
    ensures DistinctNames(Register(reg, name, sp))
  {
    var r := Register(reg, name, sp);
    if !Registered(reg, name) {
      forall i | 0 <= i < |reg|
        ensures r[i].0 != r[|reg|].0
      {
        assert r[|reg|].0 == name;
      }
    }
  }

  /** Registering the next spider keeps every earlier one found, and finds it too. */
  lemma FoundAfterAdd(before: Registry, after: Registry, sps: seq<Spider>, i: nat)
    requires i < |sps|
    requires forall k :: 0 <= k < i ==> GetSpider(before, sps[k].name).Ok?
    requires forall n :: GetSpider(after, n) == if n == sps[i].name then Ok(sps[i]) else GetSpider(before, n)
    ensures forall k :: 0 <= k < i + 1 ==> GetSpider(after, sps[k].name).Ok?
  {
    forall k | 0 <= k < i + 1
      ensures GetSpider(after, sps[k].name).Ok?
    {
      assert GetSpider(after, sps[k].name) == if sps[k].name == sps[i].name then Ok(sps[i]) else GetSpider(before, sps[k].name);
    }
  }

  /** Appending a new name finds the new spider under it and leaves every other lookup as it was. */
  lemma AddedGet(reg: Registry, name: Value, sp: Spider, other: Value)
    requires !Registered(reg, name)
    ensures GetSpider(reg + [(name, sp)], other) == if other == name then Ok(sp) else GetSpider(reg, other)
  {
    RegisterGet(reg, name, sp, other);
  }

  /** The registry after `reg[name] = spider` for each entry in turn, as the `set_spiders` loop over a dict does. */
  function Fill(reg: Registry, entries: seq<(Value, Spider)>): Registry
    decreases |entries|
  {
    if entries == [] then reg
    else Fill(Register(reg, entries[0].0, entries[0].1), entries[1..])
  }

  /** Filling keeps the registry free of duplicate names. */
  lemma {:induction false} FillDistinct(reg: Registry, entries: seq<(Value, Spider)>)
    requires DistinctNames(reg)
    ensures DistinctNames(Fill(reg, entries))
    decreases |entries|
  {
    if entries != [] {
      RegisterDistinct(reg, entries[0].0, entries[0].1);
      FillDistinct(Register(reg, entries[0].0, entries[0].1), entries[1..]);
    }
  }

  /** Filling with a name the entries never mention leaves its lookup as it was. */
  lemma {:induction false} FillUnnamed(reg: Registry, entries: seq<(Value, Spider)>, name: Value)
    requires forall k :: 0 <= k < |entries| ==> entries[k].0 != name
    ensures GetSpider(Fill(reg, entries), name) == GetSpider(reg, name)
    decreases |entries|
  {
    if entries != [] {
      RegisterGet(reg, entries[0].0, entries[0].1, name);
      FillUnnamed(Register(reg, entries[0].0, entries[0].1), entries[1..], name);
    }
  }

  /** The last entry given for a name wins, as repeated dict assignment does. */
  lemma {:induction false} FillLast(reg: Registry, entries: seq<(Value, Spider)>, k: nat)
    requires k < |entries|
    requires forall m :: k < m < |entries| ==> entries[m].0 != entries[k].0
    ensures GetSpider(Fill(reg, entries), entries[k].0) == Ok(entries[k].1)
    decreases |entries|
  {
    var next := Register(reg, entries[0].0, entries[0].1);
    if k == 0 {
      RegisterGet(reg, entries[0].0, entries[0].1, entries[0].0);
      FillUnnamed(next, entries[1..], entries[0].0);
    } else {
      assert entries[1..][k - 1] == entries[k];
      FillLast(next, entries[1..], k - 1);
    }
  }

  /** The entries `add_spider` makes for a list of spiders: each under its own name, in order. */
  function Named(sps: seq<Spider>): (r: Registry)
    ensures |r| == |sps| && forall k :: 0 <= k < |sps| ==> r[k] == (sps[k].name, sps[k])
  {
    seq(|sps|, k requires 0 <= k < |sps| => (sps[k].name, sps[k]))
  }

  lemma NamedSnoc(sps: seq<Spider>, i: nat)
    requires i < |sps|
    ensures Named(sps[..i + 1]) == Named(sps[..i]) + [(sps[i].name, sps[i])]
  {
    assert sps[..i + 1] == sps[..i] + [sps[i]];
  }

  /** `spiders.pop(name)`: every entry under `name` goes, the others stay in order. */
  function Unregister(reg: Registry, name: Value): (r: Registry)
    ensures forall x :: Registered(r, x) <==> Registered(reg, x) && x != name
  {
    if reg == [] then []
    else
      var rest := Unregister(reg[1..], name);
      forall x ensures Registered(reg, x) <==> reg[0].0 == x || Registered(reg[1..], x) {
        RegisteredTail(reg, x);
      }
      if reg[0].0 == name then rest
      else
        forall x ensures Registered([reg[0]] + rest, x) <==> reg[0].0 == x || Registered(rest, x) {
          RegisteredTail([reg[0]] + rest, x);
          assert ([reg[0]] + rest)[1..] == rest;
        }
        [reg[0]] + rest
  }

  lemma {:induction false} UnregisterGet(reg: Registry, name: Value, other: Value)
    ensures GetSpider(Unregister(reg, name), other) == if other == name then Err(EngineError("Spider[" + Str(name) + "] is not found")) else GetSpider(reg, other)
  {
    if reg != [] {
      UnregisterGet(reg[1..], name, other);
      if reg[0].0 != name {
        assert ([reg[0]] + Unregister(reg[1..], name))[1..] == Unregister(reg[1..], name);
      }
    }
  }

  lemma {:induction false} UnregisterDistinct(reg: Registry, name: Value)
    requires DistinctNames(reg)
    ensures DistinctNames(Unregister(reg, name))
  {
    if reg != [] {
      assert DistinctNames(reg[1..]);
      UnregisterDistinct(reg[1..], name);
      if reg[0].0 != name {
        var rest := Unregister(reg[1..], name);
        assert !Registered(rest, reg[0].0);
        var r := [reg[0]] + rest;
        forall i, j | 0 <= i < j < |r|
          ensures r[i].0 != r[j].0
        {
          if i == 0 {
            assert r[j] == rest[j - 1];
          } else {
            assert r[i] == rest[i - 1] && r[j] == rest[j - 1];
          }
        }
      }
    }
  }

  /** `list(v)` for the callback arguments: a list or tuple's items, a string's characters, a dict's keys. */
  function ListOf(v: Value): (r: Result<seq<Value>, Exc>)
    ensures (v.ListV? || v.TupleV?) ==> r == Ok(v.items)
    ensures (v.NoneV? || v.BoolV? || v.IntV?) ==> r == Err(TypeError)
    ensures v.StrV? ==> r.Ok? && |r.value| == |v.s| && forall i :: 0 <= i < |v.s| ==> r.value[i] == StrV([v.s[i]])
    ensures v.DictV? ==> r.Ok? && |r.value| == |v.entries| && forall i :: 0 <= i < |v.entries| ==> r.value[i] == StrV(v.entries[i].0)
  {
    match v
    case ListV(xs) => Ok(xs)
    case TupleV(xs) => Ok(xs)
    case StrV(s) => Ok(seq(|s|, i requires 0 <= i < |s| => StrV([s[i]])))
    case DictV(es) => Ok(seq(|es|, i requires 0 <= i < |es| => StrV(es[i].0)))
    case _ => Err(TypeError)
  }

  // ---------------------------------------------------------------- responses and requests

  /** The effects of a run and the exception it ends with, if any. */
  datatype Run = Run(trace: seq<Effect>, raised: Option<Exc>)

  const UnknownType: Exc := EngineError("Unknow type")

  /**
   * `process_response(rsp)`: the originating request's spider, callback
   * and arguments; the spider looked up; the callback fetched by name and
   * called; its outputs flattened and pushed until the first value of
   * unknown type; then the callback's own exception, if it raised one.
   */
  function ResponseRun(cfg: Setup, reg: Registry, rsp: Response): Run
  {
    match rsp.req
    case None => Run([], Some(AttributeError))
    case Some(rq) =>
      match ListOf(rq.callbackArgs)
      case Err(e) => Run([], Some(e))
      case Ok(args) =>
        match GetSpider(reg, rq.spider)
        case Err(e) => Run([], Some(e))
        case Ok(sp) =>
          if !rq.callback.StrV? then Run([], Some(TypeError))
          else if rq.callback.s !in sp.callbacks then Run([], Some(AttributeError))
          else
            match sp.callbacks[rq.callback.s](rsp, args)
            case NoOutput => Run([], None)
            case Outputs(outs, failure) =>
              var flat := FlattenAll(outs);
              Run(LeavesTrace(cfg, sp.name, rq.group, flat.leaves), if flat.complete then failure else Some(UnknownType))
  }

  /**
   * `_process(req)`: the `before_request` middlewares, the fetch, the
   * response bound to the request, the `after_request` middlewares, and
   * `process_response`; the first exception ends the run.
   */
  function ProcessRun(cfg: Setup, reg: Registry, fetch: Req -> Result<Response, Exc>, r: Req): Run
  {
    match Chain(BeforeRequestHooks(cfg.mids), r)
    case Err(e) => Run([], Some(e))
    case Ok(r1) =>
      match fetch(r1)
      case Err(e) => Run([], Some(e))
      case Ok(rsp) =>
        match Chain(AfterRequestHooks(cfg.mids), rsp.(req := Some(r1)))
        case Err(e) => Run([], Some(e))
        case Ok(rsp2) => ResponseRun(cfg, reg, rsp2)
  }

  /** A response to a request for a spider whose `parse` is the default pushes nothing and raises. */
  lemma DefaultParseRaises(cfg: Setup, reg: Registry, rsp: Response, sp: Spider)
    requires rsp.req.Some? && rsp.req.value.callback == StrV("parse")
    requires rsp.req.value.callbackArgs == ListV([])
    requires GetSpider(reg, rsp.req.value.spider) == Ok(sp)
    requires "parse" in sp.callbacks && sp.callbacks["parse"] == DefaultParse
    ensures ResponseRun(cfg, reg, rsp) == Run([], Some(NotImplementedError))
  {
    assert sp.callbacks["parse"](rsp, []) == DefaultParse(rsp, []);
  }

  /** A seed as `start_request` pushes it: for the spider that yields it, and not unique. */
  function Seeded(r: Req, spiderName: Value): Req
  {
    r.(spider := spiderName, unique := false)
  }

  function SeedStep(cfg: Setup, spiderName: Value): Req -> seq<Effect>
  {
    r => PushReqTrace(cfg, Seeded(r, spiderName))
  }

  /** What pushing one spider's seeds does. */
  function SeedsTrace(cfg: Setup, sp: Spider): seq<Effect>
  {
    ConcatMap(SeedStep(cfg, sp.name), sp.seeds)
  }

  function SpiderStep(cfg: Setup): ((Value, Spider)) -> seq<Effect>
  {
    (entry: (Value, Spider)) => SeedsTrace(cfg, entry.1)
  }

  /** One more spider's seeds extend the trace of the spiders before it. */
  lemma StartStep(cfg: Setup, reg: Registry, i: nat, prefix: seq<Effect>, before: seq<Effect>, after: seq<Effect>)
    requires i < |reg|
    requires before == prefix + StartTrace(cfg, reg[..i])
    requires after == before + SeedsTrace(cfg, reg[i].1)
    ensures after == prefix + StartTrace(cfg, reg[..i + 1])
  {
    assert SpiderStep(cfg)(reg[i]) == SeedsTrace(cfg, reg[i].1);
    ConcatMapSnoc(SpiderStep(cfg), reg, i);
  }

  /** `start_request()`: every seed of every registered spider, in registry order. */
  function StartTrace(cfg: Setup, reg: Registry): seq<Effect>
  {
    ConcatMap(SpiderStep(cfg), reg)
  }

  predicate NoPushHooks(cfg: Setup)
  {
    forall i :: 0 <= i < |cfg.mids| ==> cfg.mids[i].beforePushRequest.None?
  }

  predicate HandedFor(e: Effect, spiderName: Value)
  {
    e.SchedReq? ==> !e.req.unique && e.req.spider == spiderName
  }

  predicate HandedNotUnique(e: Effect)
  {
    e.SchedReq? ==> !e.req.unique
  }

  /** Every request a spider's seeding hands the scheduler is for that spider and not unique (absent push middlewares). */
  lemma SeedsNotUnique(cfg: Setup, sp: Spider)
    requires NoPushHooks(cfg)
    ensures forall k :: 0 <= k < |SeedsTrace(cfg, sp)| ==> HandedFor(SeedsTrace(cfg, sp)[k], sp.name)
  {
    var f := SeedStep(cfg, sp.name);
    forall i | 0 <= i < |sp.seeds|
      ensures forall k :: 0 <= k < |f(sp.seeds[i])| ==> HandedFor(f(sp.seeds[i])[k], sp.name)
    {
      ChainAbsent(BeforePushHooks(cfg.mids), Seeded(sp.seeds[i], sp.name));
    }
    ConcatMapAll(f, sp.seeds, e => HandedFor(e, sp.name));
  }

  /** Every request `start_request` hands the scheduler is not unique (absent push middlewares). */
  lemma StartNotUnique(cfg: Setup, reg: Registry)
    requires NoPushHooks(cfg)
    ensures forall k :: 0 <= k < |StartTrace(cfg, reg)| ==> HandedNotUnique(StartTrace(cfg, reg)[k])
  {
    var f := SpiderStep(cfg);
    forall i | 0 <= i < |reg|
      ensures forall k :: 0 <= k < |f(reg[i])| ==> HandedNotUnique(f(reg[i])[k])
    {
      SeedsNotUnique(cfg, reg[i].1);
    }
    ConcatMapAll(f, reg, HandedNotUnique);
  }
  // ---------------------------------------------------------------- the engine

  /** How `set_spiders` is called: with a dict of name to spider, or with a list of spiders. */
  datatype SpiderSet = SpiderDict(entries: seq<(Value, Spider)>) | SpiderList(spiders: seq<Spider>)

  class Engine {
    var pipelines: seq<Pipeline>
    var spiders: Registry
    var middlewares: seq<Middleware>
    var sched: Option<SchedPort>
    var trace: seq<Effect>

    /** The registry is a dict: no name twice. */
    ghost predicate Valid()
      reads this
    {
      DistinctNames(spiders)
    }

    function Cfg(): Setup
      reads this
    {
      Setup(middlewares, pipelines, sched)
    }

    constructor ()
      ensures pipelines == [] && spiders == [] && middlewares == [] && sched == None && trace == []
      ensures Valid()
    {
      pipelines := [];
      spiders := [];
      middlewares := [];
      sched := None;
      trace := [];
    }

    /**
     * `add_spider(spider)`: EngineError when the name is registered
     * already, otherwise the spider is registered under its name.
     */
    method AddSpider(sp: Spider) returns (err: Option<Exc>)
      requires Valid()
      modifies this
      ensures Valid()
      ensures err.Some? <==> Registered(old(spiders), sp.name)
      ensures err.Some? ==> err.value == EngineError("Spider[" + Str(sp.name) + "] is already exists") && spiders == old(spiders)
      ensures err.None? ==> spiders == old(spiders) + [(sp.name, sp)]
      ensures err.None? ==> forall n :: GetSpider(spiders, n) == if n == sp.name then Ok(sp) else GetSpider(old(spiders), n)
      ensures pipelines == old(pipelines) && middlewares == old(middlewares) && sched == old(sched) && trace == old(trace)
    {
      if Registered(spiders, sp.name) {
        return Some(EngineError("Spider[" + Str(sp.name) + "] is already exists"));
      }
      RegisterDistinct(spiders, sp.name, sp);
      forall n {
        AddedGet(spiders, sp.name, sp, n);
      }
      spiders := spiders + [(sp.name, sp)];
      err := None;
    }

    /**
     * `add_spiders(spiders)`: each in turn. The first spider whose name is
     * registered already raises and stops the rest; the ones before it
     * stay registered.
     */
    method AddSpiders(sps: seq<Spider>) returns (err: Option<Exc>)
      requires Valid()
      modifies this
      ensures Valid()
      ensures err.None? ==> spiders == old(spiders) + Named(sps)
      ensures err.None? ==> forall k :: 0 <= k < |sps| ==> GetSpider(spiders, sps[k].name).Ok?
      ensures err.Some? ==>
                exists n :: 0 <= n < |sps| && spiders == old(spiders) + Named(sps[..n]) &&
                            Registered(spiders, sps[n].name) &&
                            err.value == EngineError("Spider[" + Str(sps[n].name) + "] is already exists")
      ensures pipelines == old(pipelines) && middlewares == old(middlewares) && sched == old(sched) && trace == old(trace)
    {
      var i := 0;
      while i < |sps|
        invariant 0 <= i <= |sps|
        invariant Valid()
        invariant spiders == old(spiders) + Named(sps[..i])
        invariant forall k :: 0 <= k < i ==> GetSpider(spiders, sps[k].name).Ok?
        invariant pipelines == old(pipelines) && middlewares == old(middlewares) && sched == old(sched) && trace == old(trace)
      {
        ghost var before := spiders;
        err := AddSpider(sps[i]);
        if err.Some? {
          assert 0 <= i < |sps| && spiders == old(spiders) + Named(sps[..i]) && Registered(spiders, sps[i].name);
          return;
        }
        NamedSnoc(sps, i);
        FoundAfterAdd(before, spiders, sps, i);
        i := i + 1;
      }
      assert sps[..i] == sps;
      err := None;
    }

    /**
     * `set_spiders(spiders)`: the registry is emptied; a dict's entries are
     * assigned in turn, a list goes through `add_spiders`.
     */
    method SetSpiders(s: SpiderSet) returns (err: Option<Exc>)
      modifies this
      ensures Valid()
      ensures s.SpiderDict? ==> err.None? && spiders == Fill([], s.entries)
      ensures s.SpiderDict? ==> forall k :: 0 <= k < |s.entries| ==> GetSpider(spiders, s.entries[k].0).Ok?
      ensures s.SpiderList? && err.None? ==> spiders == Named(s.spiders)
      ensures s.SpiderList? && err.None? ==> forall k :: 0 <= k < |s.spiders| ==> GetSpider(spiders, s.spiders[k].name).Ok?
      ensures s.SpiderList? && err.Some? ==>
                exists n :: 0 <= n < |s.spiders| && spiders == Named(s.spiders[..n]) &&
                            Registered(spiders, s.spiders[n].name) &&
                            err.value == EngineError("Spider[" + Str(s.spiders[n].name) + "] is already exists")
      ensures pipelines == old(pipelines) && middlewares == old(middlewares) && sched == old(sched) && trace == old(trace)
    {
      spiders := [];
      match s {
        case SpiderDict(entries) =>
          var i := 0;
          while i < |entries|
            invariant 0 <= i <= |entries|
            invariant Valid()
            invariant Fill(spiders, entries[i..]) == Fill([], entries)
            invariant forall k :: 0 <= k < i ==> GetSpider(spiders, entries[k].0).Ok?
            invariant pipelines == old(pipelines) && middlewares == old(middlewares) && sched == old(sched) && trace == old(trace)
          {
            RegisterDistinct(spiders, entries[i].0, entries[i].1);
            forall n {
              RegisterGet(spiders, entries[i].0, entries[i].1, n);
            }
            assert entries[i..][1..] == entries[i + 1..];
            spiders := Register(spiders, entries[i].0, entries[i].1);
            i := i + 1;
          }
          err := None;
        case SpiderList(sps) =>
          err := AddSpiders(sps);
      }
    }

    /** `remove_spider(name)`: `dict.pop` without a default, so a missing name is a KeyError. */
    method RemoveSpider(name: Value) returns (err: Option<Exc>)
      requires Valid()
      modifies this
      ensures Valid()
      ensures err.Some? <==> !Registered(old(spiders), name)
      ensures err.Some? ==> err.value == KeyError && spiders == old(spiders)
      ensures err.None? ==> spiders == Unregister(old(spiders), name)
      ensures pipelines == old(pipelines) && middlewares == old(middlewares) && sched == old(sched) && trace == old(trace)
    {
      if !Registered(spiders, name) {
        return Some(KeyError);
      }
      UnregisterDistinct(spiders, name);
      spiders := Unregister(spiders, name);
      err := None;
    }

    method SetPipelines(ps: seq<Pipeline>)
      modifies this
      ensures pipelines == ps
      ensures spiders == old(spiders) && middlewares == old(middlewares) && sched == old(sched) && trace == old(trace)
    {
      pipelines := ps;
    }

    method SetMiddlewares(ms: seq<Middleware>)
      modifies this
      ensures middlewares == ms
      ensures spiders == old(spiders) && pipelines == old(pipelines) && sched == old(sched) && trace == old(trace)
    {
      middlewares := ms;
    }

    /** The engine's half of `set_sched`; the scheduler's half is `BaseScheduler.Attach`. */
    method SetSched(port: SchedPort)
      modifies this
      ensures sched == Some(port)
      ensures spiders == old(spiders) && pipelines == old(pipelines) && middlewares == old(middlewares) && trace == old(trace)
    {
      sched := Some(port);
    }

    /** The loop of `process_middleware` (and of `process_item`) over the selected hooks. */
    static method RunChain<T>(hooks: seq<Option<T -> Step<T>>>, obj: T) returns (r: Result<T, Exc>)
      ensures r == Chain(hooks, obj)
    {
      var cur := obj;
      var i := 0;
      while i < |hooks|
        invariant 0 <= i <= |hooks|
        invariant Chain(hooks, obj) == Chain(hooks[i..], cur)
      {
        assert hooks[i..][0] == hooks[i] && hooks[i..][1..] == hooks[i + 1..];
        if hooks[i].Some? {
          var out := hooks[i].value(cur);
          if out.Raised? {
            return Err(out.exc);
          }
          if out.result.Some? {
            cur := out.result.value;
          }
        }
        i := i + 1;
      }
      assert hooks[i..] == [];
      r := Ok(cur);
    }

    /** `process_item(item, pipelines)`: the given stages, or the engine's own when none are given. */
    method ProcessItem(item: Record, ps: seq<Pipeline> := []) returns (err: Option<Exc>)
      ensures err == ItemOutcome(if ps == [] then pipelines else ps, item)
    {
      var stages := if ps == [] then pipelines else ps;
      var r := RunChain(PipelineHooks(stages), item);
      err := if r.Err? then Some(r.error) else None;
    }

    method PushReq(r: Req)
      modifies this
      ensures trace == old(trace) + PushReqTrace(old(Cfg()), r)
      ensures Cfg() == old(Cfg()) && spiders == old(spiders)
    {
      var r2 := RunChain(BeforePushHooks(middlewares), r);
      if r2.Err? {
        trace := trace + LogUnless(r2.error, IsIgnore);
        return;
      }
      if sched.None? {
        trace := trace + [Logged(AttributeError)];
        return;
      }
      var outcome := sched.value.pushReq(r2.value);
      trace := trace + [SchedReq(r2.value)];
      if outcome.Some? {
        trace := trace + LogUnless(outcome.value, IsIgnore);
      }
    }

    method PushItem(item: Record)
      modifies this
      ensures trace == old(trace) + PushItemTrace(old(Cfg()), item)
      ensures Cfg() == old(Cfg()) && spiders == old(spiders)
    {
      if sched.None? {
        trace := trace + [Logged(AttributeError)];
        return;
      }
      var outcome := sched.value.pushItem(item, pipelines);
      trace := trace + [SchedItem(item)];
      if outcome.Some? {
        trace := trace + LogUnless(outcome.value, IsItemRejection);
      }
    }

    /** `process_response_item(item)` for one output. */
    method ProcessOut(o: Out, spiderName: Value, group: Value) returns (err: Option<Exc>)
      modifies this
      ensures trace == old(trace) + LeavesTrace(old(Cfg()), spiderName, group, FlattenOut(o).leaves)
      ensures err == if FlattenOut(o).complete then None else Some(UnknownType)
      ensures Cfg() == old(Cfg()) && spiders == old(spiders)
      decreases o, 1
    {
      match o {
        case OutReq(r) =>
          ConcatMapSingle(LeafStep(Cfg(), spiderName, group), ReqLeaf(r));
          PushReq(Adopt(r, spiderName, group));
          err := None;
        case OutItem(x) =>
          ConcatMapSingle(LeafStep(Cfg(), spiderName, group), ItemLeaf(x));
          PushItem(x);
          err := None;
        case OutList(xs) =>
          err := ProcessOuts(xs, spiderName, group);
        case OutOther =>
          err := Some(UnknownType);
      }
    }

    /** The loop over a list of outputs, stopping at the first that raises. */
    method ProcessOuts(outs: seq<Out>, spiderName: Value, group: Value) returns (err: Option<Exc>)
      modifies this
      ensures trace == old(trace) + LeavesTrace(old(Cfg()), spiderName, group, FlattenAll(outs).leaves)
      ensures err == if FlattenAll(outs).complete then None else Some(UnknownType)
      ensures Cfg() == old(Cfg()) && spiders == old(spiders)
      decreases outs, 0
    {
      ghost var cfg := Cfg();
      var i := 0;
      assert outs[..0] == [];
      while i < |outs|
        invariant 0 <= i <= |outs|
        invariant Cfg() == cfg && spiders == old(spiders)
        invariant FlattenAll(outs[..i]).complete
        invariant trace == old(trace) + LeavesTrace(cfg, spiderName, group, FlattenAll(outs[..i]).leaves)
      {
        assert outs[i] in outs;
        ghost var before := trace;
        err := ProcessOut(outs[i], spiderName, group);
        OutsStep(cfg, spiderName, group, outs, i);
        Grown(old(trace), before, trace, LeavesTrace(cfg, spiderName, group, FlattenAll(outs[..i]).leaves),
              LeavesTrace(cfg, spiderName, group, FlattenOut(outs[i]).leaves));
        if err.Some? {
          return;
        }
        i := i + 1;
      }
      assert outs[..i] == outs;
      err := None;
    }

    /** `process_response(rsp)`. */
    method ProcessResponse(rsp: Response) returns (err: Option<Exc>)
      modifies this
      ensures trace == old(trace) + ResponseRun(old(Cfg()), old(spiders), rsp).trace
      ensures err == ResponseRun(old(Cfg()), old(spiders), rsp).raised
      ensures Cfg() == old(Cfg()) && spiders == old(spiders)
    {
      if rsp.req.None? {
        return Some(AttributeError);
      }
      var rq := rsp.req.value;
      var args := ListOf(rq.callbackArgs);
      if args.Err? {
        return Some(args.error);
      }
      var sp := GetSpider(spiders, rq.spider);
      if sp.Err? {
        return Some(sp.error);
      }
      if !rq.callback.StrV? {
        return Some(TypeError);
      }
      if rq.callback.s !in sp.value.callbacks {
        return Some(AttributeError);
      }
      var result := sp.value.callbacks[rq.callback.s](rsp, args.value);
      match result
      case NoOutput =>
        err := None;
      case Outputs(outs, failure) =>
        err := ProcessOuts(outs, sp.value.name, rq.group);
        if err.None? {
          err := failure;
        }
    }

    /** `_process(req)`, with `fetch` standing for `req.request()`. */
    method ProcessRequest(r: Req, fetch: Req -> Result<Response, Exc>) returns (err: Option<Exc>)
      modifies this
      ensures trace == old(trace) + ProcessRun(old(Cfg()), old(spiders), fetch, r).trace
      ensures err == ProcessRun(old(Cfg()), old(spiders), fetch, r).raised
      ensures Cfg() == old(Cfg()) && spiders == old(spiders)
    {
      var r1 := RunChain(BeforeRequestHooks(middlewares), r);
      if r1.Err? {
        return Some(r1.error);
      }
      var fetched := fetch(r1.value);
      if fetched.Err? {
        return Some(fetched.error);
      }
      var rsp := RunChain(AfterRequestHooks(middlewares), fetched.value.(req := Some(r1.value)));
      if rsp.Err? {
        return Some(rsp.error);
      }
      err := ProcessResponse(rsp.value);
    }

    /**
     * `process(req)`: one event, carrying the request's spider and the
     * exception `_process` raised, then that same exception re-raised.
     */
    method Process(r: Req, fetch: Req -> Result<Response, Exc>) returns (err: Option<Exc>)
      modifies this
      ensures var run := ProcessRun(old(Cfg()), old(spiders), fetch, r);
              trace == old(trace) + run.trace + [ProcessEvent(r.spider, run.raised)] && err == run.raised
      ensures Cfg() == old(Cfg()) && spiders == old(spiders)
    {
      err := ProcessRequest(r, fetch);
      trace := trace + [ProcessEvent(r.spider, err)];
    }

    /** The inner loop of `start_request()`: one spider's seeds, for that spider and not unique, pushed in order. */
    method PushSeeds(sp: Spider)
      modifies this
      ensures trace == old(trace) + SeedsTrace(old(Cfg()), sp)
      ensures Cfg() == old(Cfg()) && spiders == old(spiders)
    {
      ghost var cfg := Cfg();
      var seeds := sp.seeds;
      var k := 0;
      while k < |seeds|
        invariant 0 <= k <= |seeds|
        invariant Cfg() == cfg && spiders == old(spiders)
        invariant trace == old(trace) + ConcatMap(SeedStep(cfg, sp.name), seeds[..k])
      {
        ghost var before := trace;
        PushReq(Seeded(seeds[k], sp.name));
        assert trace == before + SeedStep(cfg, sp.name)(seeds[k]);
        ConcatMapSnoc(SeedStep(cfg, sp.name), seeds, k);
        k := k + 1;
      }
      assert seeds[..k] == seeds;
    }

    /** `start_request()`: every seed of every registered spider, in registry order. */
    method StartRequest()
      modifies this
      ensures trace == old(trace) + StartTrace(old(Cfg()), old(spiders))
      ensures Cfg() == old(Cfg()) && spiders == old(spiders)
    {
      ghost var cfg := Cfg();
      var i := 0;
      while i < |spiders|
        invariant 0 <= i <= |spiders|
        invariant Cfg() == cfg && spiders == old(spiders)
        invariant trace == old(trace) + StartTrace(cfg, spiders[..i])
      {
        ghost var before := trace;
        PushSeeds(spiders[i].1);
        StartStep(cfg, spiders, i, old(trace), before, trace);
        i := i + 1;
      }
      assert spiders[..i] == spiders;
    }
  }
}
