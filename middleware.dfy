/**
 * `grapy/middleware.py`: the two stock `after_request` hooks. Each either
 * raises a signal or returns None, which keeps the response in the chain.
 */
module Middlewares {
  import opened Wrappers
  import opened Exceptions
  import opened BaseSpider
  import opened Text
  import Engine

  /** `check_response_status(rsp)`: a client error is ignored, any other status from 300 up is retried. */
  function CheckResponseStatus(rsp: Response): Step<Response>
  {
    if 400 <= rsp.status < 500 then Raised(IgnoreRequest)
    else if rsp.status >= 300 then Raised(RetryRequest)
    else Returned(None)
  }

  /** The words `re.search('html|json|text|xml|rss', ct, re.I)` looks for. */
  const ContentMarkers: seq<string> := ["html", "json", "text", "xml", "rss"]

  /** Whether the content type mentions one of the markers, ignoring case. */
  predicate AcceptedType(ct: string)
  {
    exists k :: 0 <= k < |ContentMarkers| && ContainsFold(ct, ContentMarkers[k])
  }

  /** `check_response_content_type(rsp)`: a content type naming no marker is ignored. */
  function CheckResponseContentType(rsp: Response): Step<Response>
  {
    if AcceptedType(rsp.contentType) then Returned(None) else Raised(IgnoreRequest)
  }

  /** A status splits three ways: 4xx ignored, other statuses from 300 retried, below 300 passed. */
  lemma StatusRules(rsp: Response)
    ensures CheckResponseStatus(rsp) == Raised(IgnoreRequest) <==> 400 <= rsp.status < 500
    ensures CheckResponseStatus(rsp) == Raised(RetryRequest) <==> rsp.status >= 300 && !(400 <= rsp.status < 500)
    ensures CheckResponseStatus(rsp) == Returned(None) <==> rsp.status < 300
    ensures Engine.Apply(Some(CheckResponseStatus), rsp) == if rsp.status < 300 then Ok(rsp) else Err(CheckResponseStatus(rsp).exc)
  {
  }

  /** A content type that mentions a marker anywhere, in any case, passes; so does anything around it. */
  lemma AcceptedExtend(pre: string, ct: string, post: string)
    requires AcceptedType(ct)
    ensures AcceptedType(pre + ct + post)
    ensures CheckResponseContentType(Response("", 200, pre + ct + post, None)) == Returned(None)
  {
    var k :| 0 <= k < |ContentMarkers| && ContainsFold(ct, ContentMarkers[k]);
    ContainsFoldExtend(pre, ct, post, ContentMarkers[k]);
  }

  /** Every marker is a lower-case ASCII word. */
  lemma MarkersLower()
    ensures forall k :: 0 <= k < |ContentMarkers| ==> LowerWord(ContentMarkers[k])
  {
    forall k | 0 <= k < |ContentMarkers|
      ensures LowerWord(ContentMarkers[k])
    {
    }
  }

  /** The check ignores case: upper- or lower-casing a content type never changes whether it passes. */
  lemma AcceptedIgnoresCase(ct: string, up: bool)
    ensures AcceptedType(AsciiRecase(ct, up)) <==> AcceptedType(ct)
    ensures CheckResponseContentType(Response("", 200, AsciiRecase(ct, up), None)) ==
              CheckResponseContentType(Response("", 200, ct, None))
  {
    MarkersLower();
    forall k | 0 <= k < |ContentMarkers|
      ensures ContainsFold(AsciiRecase(ct, up), ContentMarkers[k]) <==> ContainsFold(ct, ContentMarkers[k])
    {
      ContainsFoldRecase(ct, ContentMarkers[k], up);
    }
  }

  /** A marker spelt in any mix of cases, anywhere in the content type, passes. */
  lemma MarkerInAnyCase(k: nat, pre: string, v: string, post: string)
    requires k < |ContentMarkers| && CaseVariant(v, ContentMarkers[k])
    ensures AcceptedType(pre + v + post)
    ensures CheckResponseContentType(Response("", 200, pre + v + post, None)) == Returned(None)
  {
    ContainsCaseVariant(pre, v, post, ContentMarkers[k]);
  }

  /** A word whose first letter occurs nowhere in `ct`, in either case, is not contained in it. */
  lemma MarkerAbsent(ct: string, w: string)
    requires |w| > 0
    requires forall i :: 0 <= i < |ct| ==> !FoldMatch(ct[i], w[0])
    ensures !ContainsFold(ct, w)
  {
    forall i | 0 <= i <= |ct|
      ensures !MatchesAt(ct, w, i)
    {
      if i + |w| <= |ct| {
        assert !FoldMatch(ct[i + 0], w[0]);
      }
    }
  }

  /** A content type without the first letter of any marker, in either case, is ignored. */
  lemma UnmarkedRejected(rsp: Response)
    requires forall i, k :: 0 <= i < |rsp.contentType| && 0 <= k < |ContentMarkers| ==>
               !FoldMatch(rsp.contentType[i], ContentMarkers[k][0])
    ensures !AcceptedType(rsp.contentType)
    ensures CheckResponseContentType(rsp) == Raised(IgnoreRequest)
  {
    forall k | 0 <= k < |ContentMarkers|
      ensures !ContainsFold(rsp.contentType, ContentMarkers[k])
    {
      MarkerAbsent(rsp.contentType, ContentMarkers[k]);
    }
  }

  /** An image type names no marker and is ignored. */
  lemma ImageRejected()
    ensures !AcceptedType("image/png")
    ensures CheckResponseContentType(Response("", 200, "image/png", None)) == Raised(IgnoreRequest)
  {
    UnmarkedRejected(Response("", 200, "image/png", None));
  }

  /** The two hooks as middleware objects: each has only `after_request`. */
  const StatusMiddleware: Engine.Middleware := Engine.Middleware(None, Some(CheckResponseStatus), None)
  const ContentTypeMiddleware: Engine.Middleware := Engine.Middleware(None, Some(CheckResponseContentType), None)

  /** What the stock chain, status check first, raises for a response; None means it passes unchanged. */
  function StockOutcome(rsp: Response): Option<Exc>
  {
    match Engine.Chain(Engine.AfterRequestHooks([StatusMiddleware, ContentTypeMiddleware]), rsp)
    case Err(e) => Some(e)
    case Ok(_) => None
  }

  /**
   * The stock `after_request` chain: a 4xx is ignored, another status from
   * 300 up is retried, and a response below 300 is ignored unless its
   * content type names a marker; a response that passes is unchanged.
   */
  lemma StockChain(rsp: Response)
    ensures Engine.Chain(Engine.AfterRequestHooks([StatusMiddleware, ContentTypeMiddleware]), rsp) ==
              if 400 <= rsp.status < 500 then Err(IgnoreRequest)
              else if rsp.status >= 300 then Err(RetryRequest)
              else if AcceptedType(rsp.contentType) then Ok(rsp)
              else Err(IgnoreRequest)
  {
    var hooks := Engine.AfterRequestHooks([StatusMiddleware, ContentTypeMiddleware]);
    assert hooks == [Some(CheckResponseStatus), Some(CheckResponseContentType)];
    var rest := [Some(CheckResponseContentType)];
    assert hooks[1..] == rest;
    assert rest[1..] == [];
    assert Engine.Chain(rest, rsp) == Engine.Apply(Some(CheckResponseContentType), rsp);
    assert Engine.Chain(hooks, rsp) ==
             match Engine.Apply(Some(CheckResponseStatus), rsp)
             case Err(e) => Err(e)
             case Ok(o) => Engine.Chain(rest, o);
  }
}
