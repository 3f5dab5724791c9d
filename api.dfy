/**
 * The REST side of the Navirec API client (custom_components/navirec/api.py):
 * the exception hierarchy, the classification of HTTP statuses, the
 * `Retry-After` value, the `Link` header walk that drives pagination, the
 * request URLs and token validation.
 *
 * A request's outcome is an input: the transport either fails, times out or
 * hands back a status, the `Retry-After` and `Link` headers and the decoded
 * body.
 */
module Api {
  import opened Wrappers
  import opened Text
  import opened JsonValue
  import opened Uuid

  /** `NavirecApiClientError` and its three subclasses; `OtherError` stands for
      any exception outside that hierarchy (`ValueError`, `TypeError`, a
      validation error, ...), which callers do not catch as an API error. */
  datatype ApiError =
    | ClientError(msg: string)
    | CommunicationError(msg: string)
    | AuthenticationError(msg: string)
    | RateLimitError(msg: string, retryAfter: int)
    | OtherError(msg: string)

  /** `isinstance(e, NavirecApiClientError)` */
  predicate IsApiError(e: ApiError)
  {
    !e.OtherError?
  }

  /** `_extract_uuid_from_url`: the same search as `extract_uuid_from_url` in
      data.py, but a URL without an id raises instead of giving None. */
  function ExtractUuidOrError(url: string): (r: Result<string, ApiError>)
    ensures r.Ok? <==> ExtractUuid(url).Some?
    ensures r.Ok? ==> r.value == ExtractUuid(url).value && IsUuid(r.value)
    ensures r.Err? ==> r.error == OtherError("Could not extract UUID from URL: " + url)
  {
    match ExtractUuid(url)
    case Some(id) => Ok(id)
    case None => Err(OtherError("Could not extract UUID from URL: " + url))
  }

  // ---------------------------------------------------------------------
  // Status classification

  const DefaultRetryAfter: string := "60"

  /** `int(headers.get("Retry-After", "60"))`: only the delay-seconds form of
      section 10.2.3 of RFC 9110 is understood; anything `int()` rejects raises
      `ValueError`. */
  function RetryAfter(header: Option<string>): (r: Result<int, ApiError>)
    ensures header.None? ==> r == Ok(60)
    ensures header.Some? && ParseInt(header.value).Some? ==> r == Ok(ParseInt(header.value).value)
    ensures header.Some? && ParseInt(header.value).None? ==> r.Err? && !IsApiError(r.error)
  {
    match header
    case None =>
      ParseDigits(DefaultRetryAfter);
      Ok(60)
    case Some(h) =>
      match ParseInt(h)
      case Some(n) => Ok(n)
      case None => Err(OtherError("invalid literal for int() with base 10: " + h))
  }

  /** Whatever number the server sends as `Retry-After` is the one the error
      carries. */
  lemma RetryAfterOfDecimal(n: int)
    ensures RetryAfter(Some(IntToDecimal(n))) == Ok(n)
  {
    ParseIntDecimal(n);
  }

  /** How a response status is treated: 401 and 403 are authentication
      failures, 429 is rate limiting (section 4 of RFC 6585), any other status
      from 400 up fails `raise_for_status`, and the rest pass. */
  datatype Verdict =
    | Pass
    | Unauthorized
    | Throttled(retryAfter: Result<int, ApiError>)
    | HttpFailure

  function Classify(status: int, retryAfter: Option<string>): (v: Verdict)
    ensures v.Unauthorized? <==> status == 401 || status == 403
    ensures v.Throttled? <==> status == 429
    ensures v.Throttled? ==> v.retryAfter == RetryAfter(retryAfter)
    ensures v.HttpFailure? <==> 400 <= status && status !in {401, 403, 429}
    ensures v.Pass? <==> status < 400
  {
    if status == 401 || status == 403 then Unauthorized
    else if status == 429 then Throttled(RetryAfter(retryAfter))
    else if status >= 400 then HttpFailure
    else Pass
  }

  /** The rate-limit error for a wait of `n` seconds. */
  function RateLimited(n: int): (e: ApiError)
    ensures e.RateLimitError? && e.retryAfter == n
  {
    RateLimitError("Rate limited. Retry after " + IntToDecimal(n) + " seconds", n)
  }

  /** `_verify_response_or_raise`, with the `ClientError` that
      `raise_for_status` throws turned into a communication error by
      `_async_request`. */
  function VerifyResponse(url: string, status: int, retryAfter: Option<string>, reason: string): (r: Result<(), ApiError>)
    ensures r.Ok? <==> status < 400
    ensures (status == 401 || status == 403) ==> r == Err(AuthenticationError("Invalid credentials"))
    ensures status == 429 && RetryAfter(retryAfter).Ok? ==> r == Err(RateLimited(RetryAfter(retryAfter).value))
    ensures status == 429 && RetryAfter(retryAfter).Err? ==> r.Err? && !IsApiError(r.error)
    ensures 400 <= status && status !in {401, 403, 429} ==> r.Err? && r.error.CommunicationError?
  {
    match Classify(status, retryAfter)
    case Unauthorized => Err(AuthenticationError("Invalid credentials"))
    case Throttled(Ok(n)) => Err(RateLimited(n))
    case Throttled(Err(e)) => Err(e)
    case HttpFailure => Err(CommunicationError("Error fetching information from " + url + ": " + reason))
    case Pass => Ok(())
  }

  /** A 429 whose `Retry-After` is the decimal text of `n` is a rate-limit
      error that waits `n` seconds; without the header it waits 60. */
  lemma RateLimitCarriesRetryAfter(url: string, n: int, reason: string)
    ensures VerifyResponse(url, 429, Some(IntToDecimal(n)), reason) == Err(RateLimited(n))
    ensures VerifyResponse(url, 429, None, reason) == Err(RateLimited(60))
  {
    RetryAfterOfDecimal(n);
  }

  // ---------------------------------------------------------------------
  // Requests and pagination

  /** What one HTTP request produces. `link` is the `Link` header, if sent. */
  datatype Reply =
    | Response(status: int, retryAfter: Option<string>, link: Option<string>, body: Json, reason: string)
    | TransportFailure(reason: string)
    | TimedOut

  /** `_async_request`: transport failures and timeouts become communication
      errors, a response goes through `VerifyResponse`. */
  function Request(url: string, reply: Reply): (r: Result<Reply, ApiError>)
    ensures r.Ok? ==> r.value == reply && reply.Response? && reply.status < 400
    ensures !reply.Response? ==> r.Err? && r.error.CommunicationError?
    ensures reply.Response? && reply.status < 400 ==> r == Ok(reply)
    ensures reply.Response? && reply.status >= 400 ==>
      r.Err? && Err(r.error) == VerifyResponse(url, reply.status, reply.retryAfter, reply.reason)
  {
    match reply
    case TimedOut => Err(CommunicationError("Timeout error fetching information from " + url))
    case TransportFailure(why) => Err(CommunicationError("Error fetching information from " + url + ": " + why))
    case Response(status, retryAfter, _, _, why) =>
      match VerifyResponse(url, status, retryAfter, why)
      case Ok(_) => Ok(reply)
      case Err(e) => Err(e)
  }

  const RelNext: string := "rel=\"next\""

  /** `re.search(r"<([^>]+)>", s)` matches at `i` and ends at `j`. */
  predicate AngleAt(s: string, i: int, j: int)
  {
    0 <= i && i + 1 < j < |s| && s[i] == '<' && s[j] == '>' && forall k :: i < k < j ==> s[k] != '>'
  }

  /** The leftmost match of `<([^>]+)>` starting at or after `from`. */
  function AngleSearch(s: string, from: nat): (r: Option<(nat, nat)>)
    requires from <= |s|
    ensures r.Some? ==> from <= r.value.0 && AngleAt(s, r.value.0, r.value.1)
    ensures r.Some? ==> forall i, j :: from <= i < r.value.0 ==> !AngleAt(s, i, j)
    ensures r.None? ==> forall i, j :: from <= i ==> !AngleAt(s, i, j)
    decreases |s| - from
  {
    if from == |s| then None
    else if s[from] == '<' then
      match IndexOfFrom(s, '>', from + 1)
      case Some(j) => if j > from + 1 then Some((from, j)) else AngleSearch(s, from + 1)
      case None => AngleSearch(s, from + 1)
    else AngleSearch(s, from + 1)
  }

  /** The first group of `re.search(r"<([^>]+)>", s)`. */
  function AngleTarget(s: string): (r: Option<string>)
    ensures r.Some? ==> |r.value| > 0 && '>' !in r.value && Contains(s, "<" + r.value + ">")
  {
    match AngleSearch(s, 0)
    case None => None
    case Some((i, j)) =>
      assert s[i..j + 1] == "<" + s[i + 1..j] + ">";
      assert OccursAt(s, "<" + s[i + 1..j] + ">", i);
      Some(s[i + 1..j])
  }

  /** A `Link` part the pagination loop accepts: it mentions `rel="next"` and
      holds a `<...>` target. */
  predicate NextPart(part: string)
  {
    Find(part, RelNext) && AngleTarget(part).Some?
  }

  /** The URL the pagination loop takes from the comma-separated `Link`
      parts: the target of the first part it accepts. */
  function FirstNextLink(parts: seq<string>): (r: Option<string>)
  {
    if parts == [] then None
    else if NextPart(parts[0]) then AngleTarget(parts[0])
    else FirstNextLink(parts[1..])
  }

  /** The next-page URL is the `<...>` of the first part that mentions
      `rel="next"` and has one; without such a part there is no next page.
      (Section 3 of RFC 8288 in a simplified form.) */
  lemma {:induction false} FirstNextLinkIsFirstAccepted(parts: seq<string>)
    ensures FirstNextLink(parts).None? <==> forall k :: 0 <= k < |parts| ==> !NextPart(parts[k])
    ensures FirstNextLink(parts).Some? ==>
      exists k :: 0 <= k < |parts| && NextPart(parts[k]) && AngleTarget(parts[k]) == FirstNextLink(parts)
                  && forall m :: 0 <= m < k ==> !NextPart(parts[m])
  {
    if parts != [] && !NextPart(parts[0]) {
      FirstNextLinkIsFirstAccepted(parts[1..]);
      if FirstNextLink(parts).Some? {
        var k :| 0 <= k < |parts[1..]| && NextPart(parts[1..][k]) && AngleTarget(parts[1..][k]) == FirstNextLink(parts[1..])
                 && forall m :: 0 <= m < k ==> !NextPart(parts[1..][m]);
        assert forall m :: 0 <= m < k + 1 ==> !NextPart(parts[m]) by {
          forall m | 0 <= m < k + 1 ensures !NextPart(parts[m]) {
            if m > 0 { assert parts[m] == parts[1..][m - 1]; }
          }
        }
        assert NextPart(parts[k + 1]) && AngleTarget(parts[k + 1]) == FirstNextLink(parts);
      } else {
        forall k | 0 <= k < |parts| ensures !NextPart(parts[k]) {
          if k > 0 { assert parts[k] == parts[1..][k - 1]; }
        }
      }
    }
  }

  /** The link-walking loop of `_async_get_page`. */
  method NextPageUrl(header: string) returns (next: Option<string>)
    ensures next == FirstNextLink(Split(header, ','))
  {
    var parts := Split(header, ',');
    var i := 0;
    next := None;
    while i < |parts|
      invariant 0 <= i <= |parts|
      invariant FirstNextLink(parts) == FirstNextLink(parts[i..])
    {
      assert parts[i..][1..] == parts[i + 1..];
      if Find(parts[i], RelNext) {
        var target := AngleTarget(parts[i]);
        if target.Some? {
          next := target;
          return;
        }
      }
      i := i + 1;
    }
  }

  /** The `Link` header, empty when absent. */
  function LinkHeader(reply: Reply): string
  {
    if reply.Response? && reply.link.Some? then reply.link.value else ""
  }

  /** What `results.extend(data)` takes from a decoded page body: a list's
      items, a dictionary's keys, a string's characters; any other value is
      not iterable (None). A dictionary's keys come in ascending order here. */
  function Extension(body: Json): (r: Option<seq<Json>>)
    ensures r.None? <==> !(body.JArr? || body.JObj? || body.JStr?)
    ensures body.JArr? ==> r == Some(body.items)
    ensures body.JObj? ==> r.Some? && |r.value| == |body.fields|
    ensures body.JObj? ==> r.Some? && forall k :: k in body.fields <==> JStr(k) in r.value
    ensures body.JStr? ==> r.Some? && |r.value| == |body.s|
    ensures body.JStr? ==> r.Some? && forall i :: 0 <= i < |body.s| ==> r.value[i] == JStr([body.s[i]])
  {
    match body
    case JArr(items) => Some(items)
    case JObj(fields) => Some(KeyItems(Sorted(fields.Keys)))
    case JStr(s) => Some(seq(|s|, i requires 0 <= i < |s| => JStr([s[i]])))
    case _ => None
  }

  /** The keys as JSON strings, in order. */
  function KeyItems(keys: seq<string>): (r: seq<Json>)
    ensures |r| == |keys|
    ensures forall k :: k in keys <==> JStr(k) in r
  {
    if keys == [] then [] else [JStr(keys[0])] + KeyItems(keys[1..])
  }

  /** `_async_get_page` together with the `extend` that consumes it: the
      records a page contributes and the next-page URL. */
  function Page(url: string, reply: Reply): (r: Result<(seq<Json>, Option<string>), ApiError>)
    ensures Request(url, reply).Err? ==> r == Err(Request(url, reply).error)
    ensures r.Ok? <==> reply.Response? && reply.status < 400 && Extension(reply.body).Some?
    ensures r.Ok? ==> r.value.0 == Extension(reply.body).value
    ensures r.Ok? ==> r.value.1 == FirstNextLink(Split(LinkHeader(reply), ','))
    ensures Request(url, reply).Ok? && Extension(reply.body).None? ==> r.Err? && !IsApiError(r.error)
  {
    match Request(url, reply)
    case Err(e) => Err(e)
    case Ok(_) =>
      match Extension(reply.body)
      case Some(items) => Ok((items, FirstNextLink(Split(LinkHeader(reply), ','))))
      case None => Err(OtherError("object is not iterable"))
  }

  /** Method form of `Page`, running the link-walking loop. */
  method GetPage(url: string, reply: Reply) returns (r: Result<(seq<Json>, Option<string>), ApiError>)
    ensures r == Page(url, reply)
  {
    var checked := Request(url, reply);
    if checked.Err? {
      return Err(checked.error);
    }
    var next := NextPageUrl(LinkHeader(reply));
    match Extension(reply.body)
    case Some(items) => r := Ok((items, next));
    case None => r := Err(OtherError("object is not iterable"));
  }

  function NextOrEmpty(next: Option<string>): string
  {
    match next
    case Some(u) => u
    case None => ""
  }

  /** Puts the records of earlier pages in front of a fetch outcome. */
  function Prepend(items: seq<Json>, r: Option<Result<seq<Json>, ApiError>>): Option<Result<seq<Json>, ApiError>>
  {
    match r
    case Some(Ok(rest)) => Some(Ok(items + rest))
    case _ => r
  }

  /** `_async_get_paginated` over the replies the server gives, in order:
      None when the replies run out before the last page. */
  function Paged(url: string, replies: seq<Reply>): Option<Result<seq<Json>, ApiError>>
    decreases |replies|
  {
    if url == "" then Some(Ok([]))
    else if replies == [] then None
    else
      match Page(url, replies[0])
      case Err(e) => Some(Err(e))
      case Ok((items, next)) => Prepend(items, Paged(NextOrEmpty(next), replies[1..]))
  }

  lemma PrependNothing(r: Option<Result<seq<Json>, ApiError>>)
    ensures Prepend([], r) == r
  {
    if r.Some? && r.value.Ok? {
      assert [] + r.value.value == r.value.value;
    }
  }

  lemma PrependPrepend(a: seq<Json>, b: seq<Json>, r: Option<Result<seq<Json>, ApiError>>)
    ensures Prepend(a, Prepend(b, r)) == Prepend(a + b, r)
  {
    if r.Some? && r.value.Ok? {
      assert a + (b + r.value.value) == (a + b) + r.value.value;
    }
  }

  /** `_async_get_paginated`: follows next links until a page has none. */
  method GetPaginated(url: string, replies: seq<Reply>) returns (r: Option<Result<seq<Json>, ApiError>>)
    ensures r == Paged(url, replies)
  {
    var results: seq<Json> := [];
    var current := url;
    var i := 0;
    assert replies[0..] == replies;
    PrependNothing(Paged(url, replies));
    while current != ""
      invariant 0 <= i <= |replies|
      invariant Paged(url, replies) == Prepend(results, Paged(current, replies[i..]))
      decreases |replies| - i
    {
      if i == |replies| {
        return None;
      }
      assert replies[i..][1..] == replies[i + 1..];
      var page := GetPage(current, replies[i]);
      if page.Err? {
        return Some(Err(page.error));
      }
      var (items, next) := page.value;
      PrependPrepend(results, items, Paged(NextOrEmpty(next), replies[i + 1..]));
      results := results + items;
      current := NextOrEmpty(next);
      i := i + 1;
    }
    assert Paged(current, replies[i..]) == Some(Ok([]));
    assert results + [] == results;
    r := Some(Ok(results));
  }

  /** The page is an accepted 2xx list page; `NextOf` is its next link. */
  predicate GoodPage(reply: Reply)
  {
    reply.Response? && reply.status < 400 && reply.body.JArr?
  }

  function NextOf(reply: Reply): Option<string>
  {
    FirstNextLink(Split(LinkHeader(reply), ','))
  }

  function ItemsOf(replies: seq<Reply>): seq<Json>
    requires forall k :: 0 <= k < |replies| ==> GoodPage(replies[k])
  {
    if replies == [] then []
    else
      assert GoodPage(replies[0]);
      assert forall k :: 0 <= k < |replies[1..]| ==> replies[1..][k] == replies[k + 1];
      replies[0].body.items + ItemsOf(replies[1..])
  }

  /** A run of good pages, each linking on except the last, yields all their
      records concatenated in page order. */
  lemma {:induction false} PagedConcatenates(url: string, replies: seq<Reply>, n: nat)
    requires url != "" && n < |replies|
    requires forall k :: 0 <= k <= n ==> GoodPage(replies[k])
    requires forall k :: 0 <= k < n ==> NextOf(replies[k]).Some?
    requires NextOf(replies[n]).None?
    ensures Paged(url, replies) == Some(Ok(ItemsOf(replies[..n + 1])))
    decreases n
  {
    var p := replies[0];
    assert Page(url, p) == Ok((p.body.items, NextOf(p)));
    if n == 0 {
      assert ItemsOf(replies[..1]) == p.body.items + ItemsOf([]);
      assert p.body.items + [] == p.body.items;
    } else {
      var next := NextOf(p).value;
      AngleTargetNonEmpty(Split(LinkHeader(p), ','));
      forall k | 0 <= k <= n - 1 ensures GoodPage(replies[1..][k]) {
        assert replies[1..][k] == replies[k + 1];
      }
      forall k | 0 <= k < n - 1 ensures NextOf(replies[1..][k]).Some? {
        assert replies[1..][k] == replies[k + 1];
      }
      PagedConcatenates(next, replies[1..], n - 1);
      assert replies[..n + 1][1..] == replies[1..][..n];
    }
  }

  lemma {:induction false} AngleTargetNonEmpty(parts: seq<string>)
    ensures FirstNextLink(parts).Some? ==> FirstNextLink(parts).value != ""
  {
    if parts != [] && !NextPart(parts[0]) {
      AngleTargetNonEmpty(parts[1..]);
    }
  }

  // ---------------------------------------------------------------------
  // Endpoints

  /** The client keeps its base URL with trailing slashes removed. */
  function BaseUrl(apiUrl: string): (r: string)
    ensures r == [] || r[|r| - 1] != '/'
    ensures StartsWith(apiUrl, r)
  {
    RStripChar(apiUrl, '/')
  }

  /** `async_get_accounts`' URL: the accounts path with no query. */
  function AccountsUrl(apiUrl: string): (r: string)
    ensures StartsWith(r, BaseUrl(apiUrl)) && r[|BaseUrl(apiUrl)|..] == "/accounts/"
    ensures '?' !in apiUrl ==> '?' !in r
  {
    BaseUrl(apiUrl) + "/accounts/"
  }

  /** The query parameters of `async_get_vehicles`. */
  function VehicleParams(accountId: Option<string>, activeOnly: bool): (r: seq<string>)
    ensures |r| == (if Present(accountId) then 1 else 0) + (if activeOnly then 1 else 0)
    ensures Present(accountId) ==> r[0] == "account=" + accountId.value
    ensures activeOnly ==> r[|r| - 1] == "active=true"
  {
    (if Present(accountId) then ["account=" + accountId.value] else [])
    + (if activeOnly then ["active=true"] else [])
  }

  /** `async_get_vehicles`' URL: the path, then `?` and the parameters joined
      by `&` when there are any. */
  function VehiclesUrl(apiUrl: string, accountId: Option<string>, activeOnly: bool): (r: string)
  {
    var params := VehicleParams(accountId, activeOnly);
    var url := BaseUrl(apiUrl) + "/vehicles/";
    if |params| > 0 then url + "?" + Join(params, '&') else url
  }

  /** The query string of the vehicles URL splits back into exactly its
      parameters when the account id holds no `&`. */
  lemma VehiclesQuery(apiUrl: string, accountId: Option<string>, activeOnly: bool)
    requires accountId.Some? ==> '&' !in accountId.value
    requires Present(accountId) || activeOnly
    ensures var prefix := BaseUrl(apiUrl) + "/vehicles/?";
      StartsWith(VehiclesUrl(apiUrl, accountId, activeOnly), prefix)
      && Split(VehiclesUrl(apiUrl, accountId, activeOnly)[|prefix|..], '&') == VehicleParams(accountId, activeOnly)
  {
    var params := VehicleParams(accountId, activeOnly);
    var prefix := BaseUrl(apiUrl) + "/vehicles/?";
    var url := VehiclesUrl(apiUrl, accountId, activeOnly);
    assert url == prefix + Join(params, '&');
    assert url[|prefix|..] == Join(params, '&');
    forall k | 0 <= k < |params| ensures '&' !in params[k] {
      if Present(accountId) && k == 0 {
        assert params[0] == "account=" + accountId.value;
      } else {
        assert params[k] == "active=true";
      }
    }
    SplitJoin(params, '&');
  }

  /** `async_get_sensors`' URL: `?account=<id>` only when an id is given. */
  function SensorsUrl(apiUrl: string, accountId: Option<string>): (r: string)
    ensures StartsWith(r, BaseUrl(apiUrl) + "/sensors/")
    ensures Present(accountId) <==> |r| > |BaseUrl(apiUrl) + "/sensors/"|
    ensures r[|BaseUrl(apiUrl) + "/sensors/"|..] == if Present(accountId) then "?" + ("account=" + accountId.value) else ""
  {
    var url := BaseUrl(apiUrl) + "/sensors/";
    if Present(accountId) then url + "?" + ("account=" + accountId.value) else url
  }

  /** `async_validate_token`: true exactly when the accounts list is
      non-empty, false on an authentication error; other errors propagate. */
  function ValidateToken(accounts: Result<seq<Json>, ApiError>): (r: Result<bool, ApiError>)
    ensures r == Ok(true) <==> accounts.Ok? && |accounts.value| > 0
    ensures r == Ok(false) <==> (accounts.Ok? && |accounts.value| == 0) || (accounts.Err? && accounts.error.AuthenticationError?)
    ensures r.Err? ==> accounts.Err? && r.error == accounts.error
  {
    match accounts
    case Ok(list) => Ok(|list| > 0)
    case Err(AuthenticationError(_)) => Ok(false)
    case Err(e) => Err(e)
  }

  /** With an account id free of `&`, the sensors query is the single
      parameter `account=<id>`. */
  lemma SensorsQuery(apiUrl: string, accountId: Option<string>)
    requires Present(accountId) && '&' !in accountId.value
    ensures var prefix := BaseUrl(apiUrl) + "/sensors/" + "?";
      StartsWith(SensorsUrl(apiUrl, accountId), prefix)
      && Split(SensorsUrl(apiUrl, accountId)[|prefix|..], '&') == ["account=" + accountId.value]
  {
    var base := BaseUrl(apiUrl) + "/sensors/";
    var prefix := base + "?";
    var param := "account=" + accountId.value;
    var url := SensorsUrl(apiUrl, accountId);
    assert url == prefix + param;
    assert url[|prefix|..] == param;
    assert '&' !in param;
    SplitOne(param, '&');
  }

  /** A single successful page whose body is a non-empty object (an error
      document, say) contributes its keys, so the token counts as valid. */
  lemma ObjectPageValidates(url: string, reply: Reply)
    requires url != "" && reply.Response? && reply.status < 400
    requires reply.body.JObj? && |reply.body.fields| > 0 && NextOf(reply).None?
    ensures Paged(url, [reply]).Some? && Paged(url, [reply]).value.Ok?
    ensures ValidateToken(Paged(url, [reply]).value) == Ok(true)
  {
    var items := Extension(reply.body).value;
    assert Page(url, reply) == Ok((items, None));
    assert [reply][1..] == [];
    assert Paged(url, [reply]) == Some(Ok(items + []));
  }
}
