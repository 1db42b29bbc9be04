/**
 * The server hook that tells phones and tablets from other devices: the
 * user agent is searched, ignoring case, for one of eight device names,
 * and the `sec-ch-ua-mobile` client hint `?1` counts as well. The verdict
 * is stored on the request's locals before the request is passed on.
 */
module DeviceDetection {
  import opened Optional
  import opened JsText

  /** The two request headers the mobile test reads; a header the request does not carry is `None`. */
  datatype RequestHeaders = RequestHeaders(userAgent: Option<string>, secChUaMobile: Option<string>)

  /** The alternatives of `/android|webos|iphone|ipad|ipod|blackberry|iemobile|opera mini/i`. */
  const MobileKeywords: seq<string> := ["android", "webos", "iphone", "ipad", "ipod", "blackberry", "iemobile", "opera mini"]

  /** Whether one of `keywords` occurs somewhere in `s`. */
  function MentionsAny(s: string, keywords: seq<string>): bool
    decreases |keywords|
  {
    |keywords| > 0 && (Contains(s, keywords[0]) || MentionsAny(s, keywords[1..]))
  }

  lemma {:induction false} MentionsAnyIff(s: string, keywords: seq<string>)
    ensures MentionsAny(s, keywords) <==> exists k :: 0 <= k < |keywords| && Contains(s, keywords[k])
    decreases |keywords|
  {
    if |keywords| > 0 {
      MentionsAnyIff(s, keywords[1..]);
      if exists k :: 0 <= k < |keywords| && Contains(s, keywords[k]) {
        var k :| 0 <= k < |keywords| && Contains(s, keywords[k]);
        if k > 0 {
          assert keywords[1..][k - 1] == keywords[k];
        }
      }
    }
  }

  /**
   * `isMobile`. Every alternative is lower-case ASCII, so the `i` flag
   * matches a character exactly when its ASCII lower case does.
   */
  function IsMobile(headers: RequestHeaders): (r: bool)
    ensures headers.secChUaMobile == Some("?1") ==> r
    ensures r && headers.secChUaMobile != Some("?1") ==>
      headers.userAgent.Some? &&
      exists k :: 0 <= k < |MobileKeywords| && Contains(ToLower(headers.userAgent.value), MobileKeywords[k])
  {
    var ua := ToLower(headers.userAgent.GetOr(""));
    NothingInEmpty(MobileKeywords);
    MentionsAnyIff(ua, MobileKeywords);
    assert ToLower("") == "";
    MentionsAny(ua, MobileKeywords) || headers.secChUaMobile == Some("?1")
  }

  /**
   * A request counts as mobile exactly when its user agent, in lower case,
   * contains one of the device names, or its client hint is exactly `?1`.
   */
  lemma IsMobileIff(headers: RequestHeaders)
    ensures IsMobile(headers) <==>
      (exists k, i :: 0 <= k < |MobileKeywords| && OccursAt(ToLower(headers.userAgent.GetOr("")), MobileKeywords[k], i))
      || headers.secChUaMobile == Some("?1")
  {
    var ua := ToLower(headers.userAgent.GetOr(""));
    MentionsAnyIff(ua, MobileKeywords);
    forall k | 0 <= k < |MobileKeywords| ensures Contains(ua, MobileKeywords[k]) <==> exists i :: OccursAt(ua, MobileKeywords[k], i) {
      ContainsIff(ua, MobileKeywords[k]);
    }
  }

  /** No non-empty name occurs in the empty text. */
  lemma {:induction false} NothingInEmpty(keywords: seq<string>)
    requires forall k :: 0 <= k < |keywords| ==> keywords[k] != ""
    ensures !MentionsAny("", keywords)
    decreases |keywords|
  {
    if |keywords| > 0 {
      NothingInEmpty(keywords[1..]);
    }
  }

  /** A request without a user agent is read as an empty agent, so only the client hint decides. */
  lemma MissingAgentLeavesHint(headers: RequestHeaders)
    requires headers.userAgent.None? || headers.userAgent == Some("")
    ensures IsMobile(headers) <==> headers.secChUaMobile == Some("?1")
  {
    assert ToLower("") == "";
    NothingInEmpty(MobileKeywords);
  }

  /** The case of the user agent does not matter: an agent and its lower case give the same verdict. */
  lemma CaseIsIgnored(headers: RequestHeaders, userAgent: string)
    requires headers.userAgent == Some(userAgent)
    ensures IsMobile(headers) == IsMobile(headers.(userAgent := Some(ToLower(userAgent))))
  {
    assert ToLower(ToLower(userAgent)) == ToLower(userAgent);
  }

  /** `event.locals`: the verdict, and what the rest of the chain saw when the request was resolved. */
  class Locals {
    var isMobile: Option<bool>
    var resolvedWith: Option<Option<bool>>

    constructor ()
      ensures isMobile == None && resolvedWith == None
    {
      isMobile := None;
      resolvedWith := None;
    }

    /** `resolve(event)`: the rest of the chain runs with the locals as they are now. */
    method Resolve()
      modifies this
      ensures resolvedWith == Some(isMobile) && isMobile == old(isMobile)
    {
      resolvedWith := Some(isMobile);
    }
  }

  /** `deviceDetectionHandler`: store the verdict, then resolve, so the rest of the chain sees it. */
  method DeviceDetectionHandler(headers: RequestHeaders, locals: Locals)
    modifies locals
    ensures locals.isMobile == Some(IsMobile(headers))
    ensures locals.resolvedWith == Some(Some(IsMobile(headers)))
  {
    locals.isMobile := Some(IsMobile(headers));
    locals.Resolve();
  }
}
