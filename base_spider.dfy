/**
 * `grapy/core/base_spider.py`: a spider has a name, the requests it seeds
 * the crawl with (`start_request`), and named callbacks that turn a
 * response into further requests and items. Also the values a callback
 * sees and produces: the response and the (possibly nested) output.
 */
module BaseSpider {
  import opened Wrappers
  import opened Py
  import opened Exceptions
  import BaseRequest
  import Item

  /**
   * A fetched response, as the engine and the middlewares see it: its
   * URL, status and content type, and the request it answers (`rsp.req`),
   * which the engine attaches after fetching. The body is not modelled.
   */
  datatype Response = Response(url: string, status: int, contentType: string, req: Option<BaseRequest.Req>)

  /**
   * What a callback yields: a request, an item, a list of further outputs,
   * or a value of some other type.
   */
  datatype Out =
    | OutReq(req: BaseRequest.Req)
    | OutItem(item: Item.Record)
    | OutList(outs: seq<Out>)
    | OutOther

  /**
   * The result of calling a callback: `None` from a plain function, or the
   * outputs it produced in order, followed by the exception it raised, if
   * it raised one.
   */
  datatype CallbackResult = NoOutput | Outputs(outs: seq<Out>, failure: Option<Exc>)

  type Callback = (Response, seq<Value>) -> CallbackResult

  /**
   * `BaseSpider.parse(self, response)`: it raises NotImplementedError, and
   * called with extra positional arguments it raises TypeError.
   */
  function DefaultParse(rsp: Response, args: seq<Value>): CallbackResult
  {
    Outputs([], Some(if args == [] then NotImplementedError else TypeError))
  }

  /** A spider object. Its attributes do not change once it is built. */
  class Spider {
    /** `spider.name`: a class-level name, else the constructor's argument. */
    const name: Value
    /** The requests `start_request()` returns; the default is none. */
    const seeds: seq<BaseRequest.Req>
    /** The methods a request's `callback` may name; `parse` is always present. */
    const callbacks: map<string, Callback>

    /**
     * `BaseSpider(name)`, for a subclass whose class-level `name` is
     * `classLevelName` (None when it declares none) and whose methods
     * `start_request` and callbacks are given; `parse` defaults to
     * `DefaultParse`.
     */
    constructor (classLevelName: Value, name: Value := NoneV, seeds: seq<BaseRequest.Req> := [],
                 callbacks: map<string, Callback> := map[])
      ensures this.name == if Truthy(classLevelName) then classLevelName else name
      ensures this.seeds == seeds
      ensures this.callbacks == map["parse" := DefaultParse] + callbacks
    {
      if Truthy(classLevelName) {
        this.name := classLevelName;
      } else {
        this.name := name;
      }
      this.seeds := seeds;
      var defaults: map<string, Callback> := map["parse" := DefaultParse];
      this.callbacks := defaults + callbacks;
    }
  }
}
