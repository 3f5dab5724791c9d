/** The fixture downloader's fetch loop (`scripts/download_fixtures.py`): the
    `Link` header parse and the page accumulation of `fetch_json`. */
module DownloadFixtures {
  import opened Wrappers
  import opened JsonValue
  import opened Text

  // ---------------------------------------------------------------------
  // parse_link_header

  datatype Link = Link(url: string, rel: string)

  /** The text `rel="<rel>"<tail>`. */
  function RelText(rel: string, tail: string): string
  {
    "rel=\"" + rel + "\"" + tail
  }

  /** The text `<url>;<ws>rel="<rel>"<tail>`. */
  function LinkText(url: string, ws: string, rel: string, tail: string): string
  {
    "<" + url + ">;" + (ws + RelText(rel, tail))
  }

  /** A value the group `([^>]+)` or `([^"]+)` accepts. */
  predicate Group(s: string, stop: char)
  {
    |s| > 0 && stop !in s
  }

  /** The first index at or after `i` that is not whitespace. */
  function SkipSpaces(s: string, i: nat): (r: nat)
    requires i <= |s|
    ensures i <= r <= |s| && AllSpace(s[i..r]) && (r == |s| || !IsSpace(s[r]))
    decreases |s| - i
  {
    if i < |s| && IsSpace(s[i]) then
      var r := SkipSpaces(s, i + 1);
      assert s[i..r] == [s[i]] + s[i + 1..r];
      r
    else i
  }

  /** `rel="([^"]+)"` at the start of `q`: the group. */
  function RelValue(q: string): Option<string>
  {
    if !StartsWith(q, "rel=\"") then None
    else
      match IndexOfFrom(q, '"', 5)
      case None => None
      case Some(e) => if e == 5 then None else Some(q[5..e])
  }

  /** `\s*rel="([^"]+)"` at the start of `q`: the group. */
  function SpacedRelValue(q: string): Option<string>
  {
    RelValue(q[SkipSpaces(q, 0)..])
  }

  /** `re.match(r'<([^>]+)>;\s*rel="([^"]+)"', part)`: the two groups of a
      match at the start of the part. */
  function MatchLink(p: string): Option<Link>
  {
    if |p| == 0 || p[0] != '<' then None
    else
      match IndexOfFrom(p, '>', 1)
      case None => None
      case Some(j) =>
        if j < 2 || j + 1 >= |p| || p[j + 1] != ';' then None
        else
          match SpacedRelValue(p[j + 2..])
          case None => None
          case Some(rel) => Some(Link(p[1..j], rel))
  }

  lemma RelValueSound(q: string)
    requires RelValue(q).Some?
    ensures var rel := RelValue(q).value;
      Group(rel, '"') && q == RelText(rel, q[|rel| + 6..])
  {
    var e := IndexOfFrom(q, '"', 5).value;
    var rel := q[5..e];
    assert forall i :: 0 <= i < |rel| ==> rel[i] == q[5 + i];
    assert q[..5] == "rel=\"";
    assert q[e..] == "\"" + q[e + 1..];
    assert q == q[..5] + q[5..e] + q[e..];
  }

  lemma RelValueComplete(rel: string, tail: string)
    requires Group(rel, '"')
    ensures RelValue(RelText(rel, tail)) == Some(rel)
  {
    var q := RelText(rel, tail);
    var e := 5 + |rel|;
    assert q[..5] == "rel=\"";
    assert q[e] == '"';
    assert forall k :: 5 <= k < e ==> q[k] == rel[k - 5];
    assert q[5..e] == rel;
  }

  /** Skipping from `i` stops at `k` when `i..k` is whitespace and `k` is not. */
  lemma {:induction false} SkipToEnd(s: string, i: nat, k: nat)
    requires i <= k < |s| && (forall m :: i <= m < k ==> IsSpace(s[m])) && !IsSpace(s[k])
    ensures SkipSpaces(s, i) == k
    decreases k - i
  {
    if i < k {
      SkipToEnd(s, i + 1, k);
    }
  }

  lemma SpacedRelValueSound(q: string)
    requires SpacedRelValue(q).Some?
    ensures var rel := SpacedRelValue(q).value;
      exists ws, tail :: AllSpace(ws) && Group(rel, '"') && q == ws + RelText(rel, tail)
  {
    var k := SkipSpaces(q, 0);
    RelValueSound(q[k..]);
    var rel := SpacedRelValue(q).value;
    assert q == q[..k] + q[k..];
    assert AllSpace(q[..k]) && q == q[..k] + RelText(rel, q[k..][|rel| + 6..]);
  }

  lemma SpacedRelValueComplete(ws: string, rel: string, tail: string)
    requires AllSpace(ws) && Group(rel, '"')
    ensures SpacedRelValue(ws + RelText(rel, tail)) == Some(rel)
  {
    var q := ws + RelText(rel, tail);
    assert q[|ws|] == 'r';
    SkipToEnd(q, 0, |ws|);
    assert q[|ws|..] == RelText(rel, tail);
    RelValueComplete(rel, tail);
  }

  /** Every match is a part of the accepted form. */
  lemma MatchLinkSound(p: string)
    requires MatchLink(p).Some?
    ensures var l := MatchLink(p).value;
      exists ws, tail :: Group(l.url, '>') && AllSpace(ws) && Group(l.rel, '"') && p == LinkText(l.url, ws, l.rel, tail)
  {
    var j := IndexOfFrom(p, '>', 1).value;
    var q := p[j + 2..];
    var rel := SpacedRelValue(q).value;
    assert MatchLink(p) == Some(Link(p[1..j], rel));
    UrlHead(p, j);
    SpacedRelValueSound(q);
    var ws, tail :| AllSpace(ws) && Group(rel, '"') && q == ws + RelText(rel, tail);
    assert p == LinkText(p[1..j], ws, rel, tail);
  }

  /** The part up to the `;` after the first `>`. */
  lemma UrlHead(p: string, j: nat)
    requires 2 <= j && j + 1 < |p| && p[0] == '<' && p[j] == '>' && p[j + 1] == ';'
    requires forall k :: 1 <= k < j ==> p[k] != '>'
    ensures Group(p[1..j], '>') && p == "<" + p[1..j] + ">;" + p[j + 2..]
  {
    var url := p[1..j];
    assert forall i :: 0 <= i < |url| ==> url[i] == p[1 + i];
    var head := "<" + url + ">;";
    assert forall i :: 0 <= i < j + 2 ==> p[i] == head[i];
    assert p[..j + 2] == head;
    assert p == p[..j + 2] + p[j + 2..];
  }

  /** The first `>` after the opening `<` is the one that closes the URL. */
  lemma HeadParts(url: string, q: string)
    requires Group(url, '>')
    ensures var p := "<" + url + ">;" + q;
      IndexOfFrom(p, '>', 1) == Some(|url| + 1) && p[|url| + 2] == ';'
      && p[1..|url| + 1] == url && p[|url| + 3..] == q
  {
    var p := "<" + url + ">;" + q;
    var j := |url| + 1;
    assert p[j] == '>';
    assert forall i :: 1 <= i < j ==> p[i] == url[i - 1];
    assert p[1..j] == url;
    assert p[j + 2..] == q;
  }

  /** Every part of the accepted form matches, with its own URL and rel. */
  lemma MatchLinkComplete(url: string, ws: string, rel: string, tail: string)
    requires Group(url, '>') && AllSpace(ws) && Group(rel, '"')
    ensures MatchLink(LinkText(url, ws, rel, tail)) == Some(Link(url, rel))
  {
    HeadParts(url, ws + RelText(rel, tail));
    SpacedRelValueComplete(ws, rel, tail);
  }

  /** Whether a part's match binds `rel`. */
  predicate Binds(o: Option<Link>, rel: string)
  {
    o.Some? && o.value.rel == rel
  }

  /** The map the matches build: each binds its rel to its URL, a later one
      overwriting an earlier one. */
  function Bound(ls: seq<Option<Link>>): map<string, string>
    decreases |ls|
  {
    if ls == [] then map[]
    else
      var m := Bound(ls[..|ls| - 1]);
      match ls[|ls| - 1]
      case None => m
      case Some(l) => m[l.rel := l.url]
  }

  /** The match of each part, stripped. */
  function PartLinks(parts: seq<string>): (ls: seq<Option<Link>>)
    ensures |ls| == |parts|
    decreases |parts|
  {
    if parts == [] then []
    else PartLinks(parts[..|parts| - 1]) + [MatchLink(Strip(parts[|parts| - 1]))]
  }

  /** What `parse_link_header` returns for the header. */
  function Links(header: string): map<string, string>
  {
    Bound(PartLinks(Split(header, ',')))
  }

  /** One more part: its match comes last. */
  lemma BoundSnoc(ls: seq<Option<Link>>, o: Option<Link>)
    ensures Bound(ls + [o]) == (if o.Some? then Bound(ls)[o.value.rel := o.value.url] else Bound(ls))
  {
    assert (ls + [o])[..|ls|] == ls;
  }

  lemma PartLinksSnoc(parts: seq<string>, i: nat)
    requires i < |parts|
    ensures PartLinks(parts[..i + 1]) == PartLinks(parts[..i]) + [MatchLink(Strip(parts[i]))]
  {
    assert parts[..i + 1][..i] == parts[..i];
  }

  /** `parse_link_header`: the loop over the comma-separated parts. */
  method ParseLinkHeader(header: string) returns (links: map<string, string>)
    ensures links == Links(header)
  {
    var parts := Split(header, ',');
    links := map[];
    for i := 0 to |parts|
      invariant links == Bound(PartLinks(parts[..i]))
    {
      var m := MatchLink(Strip(parts[i]));
      PartLinksSnoc(parts, i);
      BoundSnoc(PartLinks(parts[..i]), m);
      if m.Some? {
        links := links[m.value.rel := m.value.url];
      }
    }
    assert parts[..|parts|] == parts;
  }

  /** A rel is bound exactly when some part's match binds it, and it is
      bound to the URL of the last such part; parts that do not match are
      ignored. */
  lemma {:induction false} BoundLastWins(ls: seq<Option<Link>>, rel: string)
    ensures rel in Bound(ls) <==> exists i :: 0 <= i < |ls| && Binds(ls[i], rel)
    ensures rel in Bound(ls) ==>
      exists i :: 0 <= i < |ls| && ls[i] == Some(Link(Bound(ls)[rel], rel))
                  && forall j :: i < j < |ls| ==> !Binds(ls[j], rel)
    decreases |ls|
  {
    if ls != [] {
      var init := ls[..|ls| - 1];
      BoundLastWins(init, rel);
      assert forall i :: 0 <= i < |init| ==> init[i] == ls[i];
      if !Binds(ls[|ls| - 1], rel) && rel in Bound(ls) {
        var i :| 0 <= i < |init| && init[i] == Some(Link(Bound(init)[rel], rel))
                 && forall j :: i < j < |init| ==> !Binds(init[j], rel);
        assert forall j :: i < j < |ls| ==> !Binds(ls[j], rel);
      }
    }
  }

  // ---------------------------------------------------------------------
  // fetch_json

  /** A response: the status, the `Retry-After` and `Link` headers and the
      decoded body. */
  datatype Page = Page(status: int, retryAfter: Option<string>, link: Option<string>, body: Json)

  /** Why a fetch raised: a 401 (the `ValueError` that asks to check the API token), a
      `Retry-After` header `int` cannot parse, or `raise_for_status` on an
      error status. */
  datatype FetchError = Unauthorized | BadRetryAfter(header: string) | HttpStatus(status: int)

  datatype FetchEnd = Done | Failed(error: FetchError) | Unfinished

  /** A fetch: the results, the URLs requested in order, the rate-limit
      waits, the successful pages, and how it ended. */
  datatype Fetch = Fetch(results: seq<Json>, urls: seq<string>, waits: seq<int>, pages: nat, end: FetchEnd)

  /** `int(response.headers.get("Retry-After", "60"))` */
  function RetryAfter(p: Page): Option<int>
  {
    ParseInt(OrDefault(p.retryAfter, "60"))
  }

  function OrDefault(o: Option<string>, d: string): string
  {
    match o
    case Some(s) => s
    case None => d
  }

  /** What a successful page adds: a list's items, or the value itself. */
  function PageItems(body: Json): seq<Json>
  {
    if body.JArr? then body.items else [body]
  }

  /** `parse_link_header(response.headers.get("Link", "")).get("next")`, with
      a missing one as the empty URL that ends the loop. */
  function NextUrl(p: Page): string
  {
    var links := Links(OrDefault(p.link, ""));
    if "next" in links then links["next"] else ""
  }

  /** One request in front of the rest of the fetch. */
  function Before(url: string, items: seq<Json>, waits: seq<int>, pages: nat, rest: Fetch): Fetch
  {
    Fetch(items + rest.results, [url] + rest.urls, waits + rest.waits, pages + rest.pages, rest.end)
  }

  /** What one response does to the loop: it stops it, or it goes on to a
      next URL; either way with the items, waits and pages it adds. */
  datatype Step =
    | Stop(items: seq<Json>, pages: nat, end: FetchEnd)
    | Go(items: seq<Json>, waits: seq<int>, pages: nat, next: string)

  /** One pass of the loop body of `fetch_json` for the response `p` to a
      request for `url`, with `nextOf` finding the next link in a page. */
  function Respond(url: string, paginated: bool, p: Page, nextOf: Page -> string): Step
  {
    if p.status == 401 then Stop([], 0, Failed(Unauthorized))
    else if p.status == 429 then
      match RetryAfter(p)
      case None => Stop([], 0, Failed(BadRetryAfter(OrDefault(p.retryAfter, "60"))))
      case Some(n) => Go([], [n], 0, url)
    else if p.status >= 400 then Stop([], 0, Failed(HttpStatus(p.status)))
    else if !paginated then Stop(PageItems(p.body), 1, Done)
    else Go(PageItems(p.body), [], 1, nextOf(p))
  }

  /** The loop of `fetch_json` over the given responses, from `url`, with
      `nextOf` finding the next link: it runs while there is a URL; running
      out of responses leaves it unfinished. */
  function FetchWith(url: string, paginated: bool, replies: seq<Page>, nextOf: Page -> string): (f: Fetch)
    ensures |f.urls| <= |replies|
    decreases |replies|
  {
    if url == "" then Fetch([], [], [], 0, Done)
    else if replies == [] then Fetch([], [], [], 0, Unfinished)
    else
      match Respond(url, paginated, replies[0], nextOf)
      case Stop(items, pages, end) => Fetch(items, [url], [], pages, end)
      case Go(items, waits, pages, next) => Before(url, items, waits, pages, FetchWith(next, paginated, replies[1..], nextOf))
  }

  /** `fetch_json`: the loop with the next link taken from the `Link`
      header. */
  function FetchSpec(url: string, paginated: bool, replies: seq<Page>): Fetch
  {
    FetchWith(url, paginated, replies, NextUrl)
  }

  /** What has been gathered so far in front of the rest of the fetch. */
  function Join(results: seq<Json>, urls: seq<string>, waits: seq<int>, pages: nat, rest: Fetch): Fetch
  {
    Fetch(results + rest.results, urls + rest.urls, waits + rest.waits, pages + rest.pages, rest.end)
  }

  lemma JoinBefore(results: seq<Json>, urls: seq<string>, waits: seq<int>, pages: nat,
                   url: string, items: seq<Json>, w: seq<int>, pg: nat, rest: Fetch)
    ensures Join(results, urls, waits, pages, Before(url, items, w, pg, rest))
         == Join(results + items, urls + [url], waits + w, pages + pg, rest)
  {
    assert results + (items + rest.results) == (results + items) + rest.results;
    assert urls + ([url] + rest.urls) == (urls + [url]) + rest.urls;
    assert waits + (w + rest.waits) == (waits + w) + rest.waits;
  }

  /** The body of the loop of `fetch_json` for one response. */
  method HandleResponse(url: string, paginated: bool, p: Page) returns (s: Step)
    ensures s == Respond(url, paginated, p, NextUrl)
  {
    if p.status == 401 {
      return Stop([], 0, Failed(Unauthorized));
    }
    if p.status == 429 {
      var n := RetryAfter(p);
      if n.None? {
        return Stop([], 0, Failed(BadRetryAfter(OrDefault(p.retryAfter, "60"))));
      }
      return Go([], [n.value], 0, url);
    }
    if p.status >= 400 {
      return Stop([], 0, Failed(HttpStatus(p.status)));
    }
    if !paginated {
      return Stop(PageItems(p.body), 1, Done);
    }
    var links := ParseLinkHeader(OrDefault(p.link, ""));
    var next := if "next" in links then links["next"] else "";
    return Go(PageItems(p.body), [], 1, next);
  }

  /** The loop of `fetch_json`, over the responses in the order they
      come. */
  method FetchJson(url: string, paginated: bool, replies: seq<Page>) returns (f: Fetch)
    ensures f == FetchSpec(url, paginated, replies)
  {
    var results: seq<Json> := [];
    var urls: seq<string> := [];
    var waits: seq<int> := [];
    var pages: nat := 0;
    var current := url;
    var i := 0;
    while current != ""
      invariant 0 <= i <= |replies|
      invariant FetchSpec(url, paginated, replies)
             == Join(results, urls, waits, pages, FetchSpec(current, paginated, replies[i..]))
      decreases |replies| - i
    {
      if i == |replies| {
        assert replies[i..] == [];
        return Fetch(results, urls, waits, pages, Unfinished);
      }
      assert replies[i..][0] == replies[i] && replies[i..][1..] == replies[i + 1..];
      var s := HandleResponse(current, paginated, replies[i]);
      match s {
        case Stop(items, pg, end) =>
          assert waits + [] == waits;
          return Fetch(results + items, urls + [current], waits, pages + pg, end);
        case Go(items, w, pg, next) =>
          JoinBefore(results, urls, waits, pages, current, items, w, pg, FetchSpec(next, paginated, replies[i + 1..]));
          results, urls, waits, pages := results + items, urls + [current], waits + w, pages + pg;
          current := next;
          i := i + 1;
      }
    }
    return Fetch(results, urls, waits, pages, Done);
  }

  // ---------------------------------------------------------------------
  // Properties of the fetch

  /** The results of the responses read, in order: successful pages add
      their items, rate-limited ones nothing. */
  function Gathered(replies: seq<Page>): seq<Json>
    decreases |replies|
  {
    if replies == [] then []
    else (if replies[0].status == 429 then [] else PageItems(replies[0].body)) + Gathered(replies[1..])
  }

  /** The URL after a response: the same one after a 429, the next link
      after a successful page. */
  function Follow(url: string, p: Page, nextOf: Page -> string): string
  {
    if p.status == 429 then url else nextOf(p)
  }

  /** A response the loop goes on from leads to `Follow`'s URL, and adds the
      items `Gathered` counts for it. */
  lemma GoFollows(url: string, paginated: bool, p: Page, nextOf: Page -> string)
    requires Respond(url, paginated, p, nextOf).Go?
    ensures Respond(url, paginated, p, nextOf).next == Follow(url, p, nextOf)
    ensures Respond(url, paginated, p, nextOf).items == Gathered([p])
  {
    assert Gathered([p]) == (if p.status == 429 then [] else PageItems(p.body)) + Gathered([]);
  }

  /** The chain of URLs of the rest of the fetch carries over to the whole. */
  lemma ChainCarries(url: string, rest: seq<string>, replies: seq<Page>, nextOf: Page -> string)
    requires |rest| < |replies|
    requires rest != [] ==> rest[0] == Follow(url, replies[0], nextOf)
    requires forall k :: 0 <= k < |rest| - 1 ==> rest[k + 1] == Follow(rest[k], replies[1..][k], nextOf)
    ensures var urls := [url] + rest;
      forall k :: 0 <= k < |urls| - 1 ==> urls[k + 1] == Follow(urls[k], replies[k], nextOf)
  {
    var urls := [url] + rest;
    forall k | 0 <= k < |urls| - 1
      ensures urls[k + 1] == Follow(urls[k], replies[k], nextOf)
    {
      if k > 0 {
        assert replies[k] == replies[1..][k - 1];
      }
    }
  }

  /** Gathering the first `n + 1` responses is the first one's items before
      the next `n`. */
  lemma GatheredCarries(replies: seq<Page>, n: nat)
    requires n < |replies|
    ensures Gathered(replies[..n + 1]) == Gathered([replies[0]]) + Gathered(replies[1..][..n])
  {
    var s := replies[..n + 1];
    assert s[1..] == replies[1..][..n];
    assert [replies[0]][1..] == [];
  }

  /** The first request is for the given URL, and each later one is the same
      URL after a 429 and the next link otherwise. */
  lemma {:induction false} FetchFollowsLinks(url: string, paginated: bool, replies: seq<Page>, nextOf: Page -> string)
    ensures var f := FetchWith(url, paginated, replies, nextOf);
      (url != "" && replies != [] ==> |f.urls| > 0 && f.urls[0] == url)
      && (forall k :: 0 <= k < |f.urls| - 1 ==> f.urls[k + 1] == Follow(f.urls[k], replies[k], nextOf))
    decreases |replies|
  {
    if url != "" && replies != [] {
      var s := Respond(url, paginated, replies[0], nextOf);
      if s.Go? {
        GoFollows(url, paginated, replies[0], nextOf);
        FetchFollowsLinks(s.next, paginated, replies[1..], nextOf);
        var r := FetchWith(s.next, paginated, replies[1..], nextOf);
        assert FetchWith(url, paginated, replies, nextOf).urls == [url] + r.urls;
        ChainCarries(url, r.urls, replies, nextOf);
      }
    }
  }

  /** A fetch that is not cut short by an error holds exactly the gathered
      results of the responses it read. */
  lemma {:induction false} FetchGathers(url: string, paginated: bool, replies: seq<Page>, nextOf: Page -> string)
    ensures var f := FetchWith(url, paginated, replies, nextOf);
      !f.end.Failed? ==> f.results == Gathered(replies[..|f.urls|])
    decreases |replies|
  {
    if url != "" && replies != [] {
      var p := replies[0];
      var s := Respond(url, paginated, p, nextOf);
      if s.Go? {
        GoFollows(url, paginated, p, nextOf);
        FetchGathers(s.next, paginated, replies[1..], nextOf);
        var r := FetchWith(s.next, paginated, replies[1..], nextOf);
        assert FetchWith(url, paginated, replies, nextOf) == Before(url, s.items, s.waits, s.pages, r);
        GatheredCarries(replies, |r.urls|);
      } else if s.end.Done? {
        assert replies[..1] == [p];
        assert Gathered([p]) == PageItems(p.body) + Gathered([]);
      }
    }
  }

  /** Without pagination, one successful page ends the fetch: at most one
      page is read, and a completed fetch read exactly one. */
  lemma {:induction false} SinglePage(url: string, replies: seq<Page>, nextOf: Page -> string)
    ensures var f := FetchWith(url, false, replies, nextOf);
      f.pages <= 1 && (f.end.Done? && url != "" ==> f.pages == 1)
    decreases |replies|
  {
    if url != "" && replies != [] && replies[0].status == 429 && RetryAfter(replies[0]).Some? {
      SinglePage(url, replies[1..], nextOf);
    }
  }

  /** The fetch fails with the authentication error exactly when the last
      response it read is a 401. */
  lemma {:induction false} AuthFailureIsLast(url: string, paginated: bool, replies: seq<Page>, nextOf: Page -> string)
    ensures var f := FetchWith(url, paginated, replies, nextOf);
      f.end == Failed(Unauthorized) <==> |f.urls| > 0 && replies[|f.urls| - 1].status == 401
    decreases |replies|
  {
    if url != "" && replies != [] {
      var s := Respond(url, paginated, replies[0], nextOf);
      if s.Go? {
        AuthFailureIsLast(s.next, paginated, replies[1..], nextOf);
        var r := FetchWith(s.next, paginated, replies[1..], nextOf);
        assert FetchWith(url, paginated, replies, nextOf) == Before(url, s.items, s.waits, s.pages, r);
        if r.urls != [] {
          assert replies[|r.urls|] == replies[1..][|r.urls| - 1];
        } else {
          assert r.end == Done || r.end == Unfinished;
        }
      }
    }
  }
}
