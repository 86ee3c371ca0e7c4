/**
 * The exceptions that travel through the crawler: grapy's own five
 * (grapy/core/exceptions.py) and the Python built-in ones that the modelled
 * code raises or lets escape.
 */
module Exceptions {
  import opened Wrappers

  datatype Exc =
    | IgnoreRequest                 // drop a request (or a response) quietly
    | RetryRequest                  // ask the scheduler to try the request again
    | DropItem                      // a pipeline discards an item
    | ItemError                     // a pipeline rejects an item
    | EngineError(msg: string)      // misuse of the engine (duplicate spider, unknown type, ...)
    | NotImplementedError
    | KeyError
    | ValueError
    | TypeError
    | AttributeError
    | UnicodeDecodeError
    | External(origin: string)      // raised by code outside the model (a hook, a callback, the service)

  /**
   * What calling a user hook (a middleware or a pipeline stage) did: it
   * returned a value (`None` meaning Python's None) or raised.
   */
  datatype Step<T> = Returned(result: Option<T>) | Raised(exc: Exc)
}
