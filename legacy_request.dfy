/**
 * `grapy/core/request.py`: the older request class. Its wire format is the
 * one of `BaseRequest` (same keys, defaults, JSON keys and separator), but
 * `pack` returns the UTF-8 bytes, `unpack` accepts bytes only, `build`
 * always makes a plain `Request`, and the object carries a `ref` field.
 * Also the decision `request()` makes from a fetched status and content
 * type; the transport itself is a parameter.
 */
module LegacyRequest {
  import opened Wrappers
  import opened Py
  import opened Exceptions
  import opened BaseRequest
  import Utf8
  import BaseSpider
  import Middlewares

  /** The state of a legacy request: the packed fields (`request_time` unused, zero) and `ref`. */
  datatype LegacyReq = LegacyReq(fields: Req, ref: Value)

  /** `Request('')`: `ref` starts at 0 like `req_id` and `group`. */
  const LegacyBlank: LegacyReq := LegacyReq(Blank, IntV(0))

  /** `pack()`: the UTF-8 bytes of the joined fields. */
  function PackBytes(j: Json, r: LegacyReq): seq<Utf8.Byte>
  {
    Utf8.Encode(Pack(j, r.fields))
  }

  /**
   * `unpack(payload)`: `str(payload, 'utf-8')` raises TypeError for a text
   * payload and UnicodeDecodeError for bytes that are not UTF-8; the rest
   * is the base unpack.
   */
  function LegacyUnpack(j: Json, p: Utf8.Payload): Result<map<Key, Value>, Exc>
  {
    match p
    case TextPayload(_) => Err(TypeError)
    case BytesPayload(bs) =>
      match Utf8.Decode(bs)
      case None => Err(UnicodeDecodeError)
      case Some(text) => UnpackText(j, text)
  }

  /** `Request.build(payload)`, as a value: the blank request with the truthy unpacked fields set. */
  function LegacyBuildValue(j: Json, p: Utf8.Payload): Result<LegacyReq, Exc>
  {
    var m :- LegacyUnpack(j, p);
    Ok(LegacyReq(Restore(Blank, m, |Keys|), IntV(0)))
  }

  /** A text payload is refused, where the base class would have accepted it. */
  lemma LegacyRefusesText(j: Json, s: string)
    ensures LegacyBuildValue(j, Utf8.TextPayload(s)) == Err(TypeError)
    ensures BaseRequest.BuildValue(j, Utf8.TextPayload(s)) == BaseRequest.BuildValue(j, Utf8.BytesPayload(Utf8.Encode(s)))
  {
    BuildOfBytes(j, s);
  }

  /** On bytes, the legacy and the base build agree on every packed field; `ref` is reset to 0. */
  lemma LegacyAgreesOnBytes(j: Json, bs: seq<Utf8.Byte>)
    ensures LegacyBuildValue(j, Utf8.BytesPayload(bs)).Ok? <==> BaseRequest.BuildValue(j, Utf8.BytesPayload(bs)).Ok?
    ensures LegacyBuildValue(j, Utf8.BytesPayload(bs)).Ok? ==>
              LegacyBuildValue(j, Utf8.BytesPayload(bs)).value == LegacyReq(BaseRequest.BuildValue(j, Utf8.BytesPayload(bs)).value, IntV(0))
    ensures LegacyBuildValue(j, Utf8.BytesPayload(bs)).Err? ==>
              LegacyBuildValue(j, Utf8.BytesPayload(bs)).error == BaseRequest.BuildValue(j, Utf8.BytesPayload(bs)).error
  {
  }

  /**
   * The legacy round trip: building from `pack()` succeeds and gives the
   * fields back as the base round trip does, with `unique` true and `ref` 0.
   */
  lemma LegacyRoundTrip(j: Json, r: LegacyReq)
    requires Lawful(j) && SeparatorFree(r.fields)
    ensures LegacyBuildValue(j, Utf8.BytesPayload(PackBytes(j, r))).Ok?
    ensures forall k :: Field(LegacyBuildValue(j, Utf8.BytesPayload(PackBytes(j, r))).value.fields, k) == Rebuilt(j, k, Field(r.fields, k))
    ensures LegacyBuildValue(j, Utf8.BytesPayload(PackBytes(j, r))).value.fields.unique
    ensures LegacyBuildValue(j, Utf8.BytesPayload(PackBytes(j, r))).value.ref == IntV(0)
  {
    Utf8.DecodeEncode(Pack(j, r.fields));
    BuildOfPack(j, r.fields);
    assert LegacyUnpack(j, Utf8.BytesPayload(PackBytes(j, r))) == UnpackText(j, Pack(j, r.fields));
  }

  /** A legacy request object. */
  class Request {
    var url: Value
    var httpMethod: Value
    var callback: Value
    var callbackArgs: Value
    var kwargs: Value
    var spider: Value
    var unique: bool
    var reqId: Value
    var ref: Value
    var group: Value

    function State(): LegacyReq
      reads this
    {
      LegacyReq(Req(url, httpMethod, callback, callbackArgs, kwargs, spider, unique, reqId, group, 0), ref)
    }

    /** `Request(url, method, callback, callback_args, **kwargs)`: the url loses its fragment; `ref` is 0. */
    constructor (url: string, httpMethod: Value := StrV("get"), callback: Value := StrV("parse"),
                 callbackArgs: Value := ListV([]), kwargs: Dicts.Dict := [])
      ensures State() == LegacyReq(Req(StrV(StripFragment(url)), httpMethod, callback, callbackArgs, DictV(kwargs),
                                       StrV("default"), true, IntV(0), IntV(0), 0), IntV(0))
    {
      this.url := StrV(StripFragment(url));
      this.httpMethod := httpMethod;
      this.callback := callback;
      this.callbackArgs := callbackArgs;
      this.kwargs := DictV(kwargs);
      this.spider := StrV("default");
      this.unique := true;
      this.reqId := IntV(0);
      this.ref := IntV(0);
      this.group := IntV(0);
    }

    /** `setattr(self, k, v)` for a packed field. */
    method SetAttr(k: Key, v: Value)
      modifies this
      ensures State().fields == WithField(old(State()).fields, k, v) && ref == old(ref)
    {
      match k
      case Url => url := v;
      case Method => httpMethod := v;
      case Callback => callback := v;
      case CallbackArgs => callbackArgs := v;
      case Kwargs => kwargs := v;
      case Spider => spider := v;
      case ReqId => reqId := v;
      case Group => group := v;
    }

    /** The loop of `build`: each packed key, in wire order, set when its payload value is truthy. */
    method SetFields(m: map<Key, Value>)
      modifies this
      ensures State().fields == Restore(old(State()).fields, m, |Keys|) && ref == old(ref)
    {
      ghost var start := State().fields;
      RestoreZero(start, m);
      var i := 0;
      while i < |Keys|
        invariant 0 <= i <= |Keys|
        invariant State().fields == Restore(start, m, i) && ref == old(ref)
      {
        var k := Keys[i];
        RestoreStep(start, m, i);
        if k in m && Truthy(m[k]) {
          SetAttr(k, m[k]);
        }
        i := i + 1;
      }
    }

    /** `Request.build(payload)`: a fresh plain request with the payload's truthy fields set. */
    static method Build(j: Json, p: Utf8.Payload) returns (r: Result<Request, Exc>)
      ensures r.Ok? <==> LegacyBuildValue(j, p).Ok?
      ensures r.Ok? ==> fresh(r.value) && r.value.State() == LegacyBuildValue(j, p).value
      ensures r.Err? ==> r.error == LegacyBuildValue(j, p).error
    {
      var req := new Request("");
      assert req.State() == LegacyBlank;
      var payload := LegacyUnpack(j, p);
      if payload.Err? {
        return Err(payload.error);
      }
      req.SetFields(payload.value);
      return Ok(req);
    }
  }

  // ---------------------------------------------------------------- the decision inside `request()`

  /**
   * What `request()` decides for a status and content type: a 4xx is
   * ignored, a 200 is accepted when its content type names a marker and
   * ignored otherwise, and every other status is retried.
   */
  function Classify(status: int, contentType: string): Option<Exc>
  {
    if 400 <= status < 500 then Some(IgnoreRequest)
    else if status == 200 then (if Middlewares.AcceptedType(contentType) then None else Some(IgnoreRequest))
    else Some(RetryRequest)
  }

  /** How the transport of `request()` ended. */
  datatype Transport =
    | Answered(status: int, contentType: string, finalUrl: string)   // aiohttp answered; a missing content-type reads as ''
    | Interrupted                                                    // aiohttp raised IncompleteRead or BadStatusLine
    | ConnectionFailed                                               // aiohttp raised OsConnectionError
    | ValueFailed                                                    // aiohttp raised ValueError

  /**
   * `request()` after the transport: the decision above on an answer; the
   * two transport failures become IgnoreRequest. The fallback after an
   * interrupted read calls `requests.get` with the `connector` keyword
   * every call carries, which `requests` refuses with TypeError; the later
   * `except` clauses of the same `try` do not catch what a handler raises,
   * so the TypeError propagates and the fallback's own status checks are
   * never reached.
   */
  function Fetched(t: Transport): Result<BaseSpider.Response, Exc>
  {
    match t
    case Answered(status, ct, u) =>
      (match Classify(status, ct) case None => Ok(BaseSpider.Response(u, status, ct, None)) case Some(e) => Err(e))
    case Interrupted => Err(TypeError)
    case ConnectionFailed => Err(IgnoreRequest)
    case ValueFailed => Err(IgnoreRequest)
  }

  /**
   * Only an answered 200 with an accepted content type gets through, and
   * then with that status, type and final url; an answer that fails is
   * turned down exactly as `Classify` says; an interrupted read always ends
   * in TypeError; the other failures are signals.
   */
  lemma FetchedRules(t: Transport)
    ensures Fetched(t).Ok? <==> t.Answered? && t.status == 200 && Middlewares.AcceptedType(t.contentType)
    ensures Fetched(t).Ok? ==> Fetched(t).value == BaseSpider.Response(t.finalUrl, 200, t.contentType, None)
    ensures t.Answered? && Fetched(t).Err? ==> Classify(t.status, t.contentType) == Some(Fetched(t).error)
    ensures Fetched(t).Err? ==> Fetched(t).error in {IgnoreRequest, RetryRequest, TypeError}
    ensures Fetched(t) == Err(TypeError) <==> t.Interrupted?
  {
  }

  /**
   * The legacy decision against the stock middleware chain: they agree on
   * a 200 and on every status from 300 up; below 300 the legacy code retries
   * every status but 200, where the middlewares let it through or ignore it.
   */
  lemma ClassifyVersusMiddlewares(rsp: BaseSpider.Response)
    ensures (rsp.status == 200 || rsp.status >= 300) ==>
              Classify(rsp.status, rsp.contentType) == Middlewares.StockOutcome(rsp)
    ensures rsp.status < 300 && rsp.status != 200 ==>
              Classify(rsp.status, rsp.contentType) == Some(RetryRequest) &&
              Middlewares.StockOutcome(rsp) != Some(RetryRequest)
  {
    Middlewares.StockChain(rsp);
  }
}
