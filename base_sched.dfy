/**
 * `grapy/core/base_sched.py`: the scheduler every concrete scheduler
 * builds on. It knows its engine (set by the engine's `set_sched`),
 * refuses `push_req`, and hands requests and items back to the engine:
 * `submit_req` runs `engine.process`, `push_item` and `submit_item` run
 * `engine.process_item`.
 */
module BaseSched {
  import opened Wrappers
  import opened Exceptions
  import opened BaseRequest
  import opened BaseSpider
  import Item
  import Engine

  /**
   * What the base scheduler's `push_req` and `push_item` raise, as the
   * engine sees it: `push_req` always raises NotImplementedError, and
   * `push_item` raises what the pipelines raise.
   */
  const BasePort: Engine.SchedPort :=
    Engine.SchedPort((r: Req) => Some(NotImplementedError),
                     (item: Item.Record, ps: seq<Engine.Pipeline>) => Engine.ItemOutcome(ps, item))

  /**
   * A base scheduler object. Concrete schedulers hold one and delegate to
   * it, as the Python subclasses call `BaseScheduler`'s methods.
   */
  class BaseScheduler {
    var engine: Engine.Engine?
    var isRunning: bool

    /** `BaseScheduler()`: no engine yet, not running. */
    constructor ()
      ensures engine == null && !isRunning
    {
      engine := null;
      isRunning := false;
    }

    /**
     * `engine.set_sched(sched)`: the engine takes the scheduler (seen
     * through `port`, which says what its pushes raise) and the scheduler
     * takes the engine; nothing else of the engine changes.
     */
    method Attach(e: Engine.Engine, port: Engine.SchedPort)
      modifies this, e
      ensures engine == e && isRunning == old(isRunning)
      ensures e.sched == Some(port)
      ensures e.spiders == old(e.spiders) && e.pipelines == old(e.pipelines)
      ensures e.middlewares == old(e.middlewares) && e.trace == old(e.trace)
    {
      e.SetSched(port);
      engine := e;
    }

    /** `push_req(req)`: not implemented here; it always raises. */
    method PushReq(r: Req) returns (err: Option<Exc>)
      ensures err == Some(NotImplementedError)
      ensures err == BasePort.pushReq(r)
    {
      err := Some(NotImplementedError);
    }

    /**
     * `submit_item(item)`: `engine.process_item(item)` with the engine's
     * own pipelines; without an engine the attribute lookup fails.
     */
    method SubmitItem(item: Item.Record) returns (err: Option<Exc>)
      ensures engine == null ==> err == Some(AttributeError)
      ensures engine != null ==> err == Engine.ItemOutcome(engine.pipelines, item)
    {
      if engine == null {
        return Some(AttributeError);
      }
      err := engine.ProcessItem(item);
    }

    /** `push_item(item)`: straight to `submit_item`, so it raises what the engine's pipelines raise. */
    method PushItem(item: Item.Record) returns (err: Option<Exc>)
      ensures engine == null ==> err == Some(AttributeError)
      ensures engine != null ==> err == BasePort.pushItem(item, engine.pipelines)
    {
      err := SubmitItem(item);
    }

    /**
     * `submit_req(req)`: `engine.process(req)`, which emits its event and
     * re-raises what processing raised; without an engine the attribute
     * lookup fails and nothing else happens.
     */
    method SubmitReq(r: Req, fetch: Req -> Result<Response, Exc>) returns (err: Option<Exc>)
      modifies engine
      ensures engine == old(engine) && isRunning == old(isRunning)
      ensures engine == null ==> err == Some(AttributeError)
      ensures engine != null ==>
                var run := Engine.ProcessRun(old(engine.Cfg()), old(engine.spiders), fetch, r);
                engine.trace == old(engine.trace) + run.trace + [Engine.ProcessEvent(r.spider, run.raised)] &&
                err == run.raised
      ensures engine != null ==> engine.Cfg() == old(engine.Cfg()) && engine.spiders == old(engine.spiders)
    {
      if engine == null {
        return Some(AttributeError);
      }
      err := engine.Process(r, fetch);
    }
  }
}
