/**
 * The streaming side of the API client (`NavirecStreamClient` in
 * custom_components/navirec/api.py): the resume URL, the reconnect backoff,
 * connecting with status classification, disconnecting, and reading the
 * newline-delimited JSON event stream while tracking the `updated_at`
 * cursor.
 *
 * The HTTP response is an input: either the connection attempt fails in the
 * transport, or it yields a status, a `Retry-After` header, the body's lines
 * and whether reading fails after the last line. Decoding JSON is the given
 * partial function `parse`.
 */
module Stream {
  import opened Wrappers
  import opened Text
  import opened JsonValue
  import Api

  // ---------------------------------------------------------------------
  // Reconnect backoff

  const MinDelay: int := 1
  const MaxDelay: int := 60
  const Multiplier: int := 2

  /** The stored delay after one `get_reconnect_delay` call. */
  function NextDelay(d: int): (r: int)
    ensures MinDelay <= d <= MaxDelay ==> MinDelay <= r <= MaxDelay && d <= r
    ensures r == MaxDelay || r == d * Multiplier
  {
    if d * Multiplier < MaxDelay then d * Multiplier else MaxDelay
  }

  function Pow2(k: nat): nat
  {
    if k == 0 then 1 else 2 * Pow2(k - 1)
  }

  /** The delay `get_reconnect_delay` returns on its `k`-th call (counting
      from 0) on a fresh client. */
  function DelayAt(k: nat): int
  {
    if k == 0 then MinDelay else NextDelay(DelayAt(k - 1))
  }

  /** Fresh-client delays are 1, 2, 4, 8, ... saturating at 60. */
  lemma {:induction false} DelayAtIsCappedPower(k: nat)
    ensures DelayAt(k) == if Pow2(k) < MaxDelay then Pow2(k) else MaxDelay
  {
    if k > 0 {
      DelayAtIsCappedPower(k - 1);
      if Pow2(k - 1) >= MaxDelay {
        assert Pow2(k) >= MaxDelay;
      }
    }
  }

  // ---------------------------------------------------------------------
  // The resume URL

  const StreamPath: string := "/streams/vehicle_states/?account="
  const CursorParam: string := "updated_at__gt="

  /** The URL `async_connect` requests: the base URL, the stream path with the
      account, and `&updated_at__gt=<cursor>` when the cursor is non-empty. */
  function StreamUrl(apiUrl: string, accountId: string, cursor: Option<string>): (r: string)
    ensures StartsWith(r, Api.BaseUrl(apiUrl) + StreamPath + accountId)
    ensures Present(cursor) <==> |r| > |Api.BaseUrl(apiUrl) + StreamPath + accountId|
  {
    var url := Api.BaseUrl(apiUrl) + StreamPath + accountId;
    if Present(cursor) then url + "&" + CursorParam + cursor.value else url
  }

  const QueryStart: string := "/streams/vehicle_states/?"
  const AccountParam: string := "account="

  /** The query string of the stream URL. */
  function StreamQuery(accountId: string, cursor: Option<string>): string
  {
    if Present(cursor) then AccountParam + accountId + "&" + CursorParam + cursor.value
    else AccountParam + accountId
  }

  lemma StreamUrlHasQuery(apiUrl: string, accountId: string, cursor: Option<string>)
    ensures StreamUrl(apiUrl, accountId, cursor) == Api.BaseUrl(apiUrl) + QueryStart + StreamQuery(accountId, cursor)
  {
    var base := Api.BaseUrl(apiUrl);
    var head := base + StreamPath + accountId;
    assert StreamPath == QueryStart + AccountParam;
    assert head == base + QueryStart + (AccountParam + accountId);
    if Present(cursor) {
      var since := CursorParam + cursor.value;
      assert head + "&" + since == base + QueryStart + (AccountParam + accountId + "&" + since);
    }
  }

  /** The query splits back into the account parameter and, exactly when the
      cursor is non-empty, the cursor parameter. */
  lemma StreamUrlQuery(apiUrl: string, accountId: string, cursor: Option<string>)
    requires '&' !in accountId
    requires cursor.Some? ==> '&' !in cursor.value
    ensures var prefix := Api.BaseUrl(apiUrl) + QueryStart;
      StartsWith(StreamUrl(apiUrl, accountId, cursor), prefix)
      && Split(StreamUrl(apiUrl, accountId, cursor)[|prefix|..], '&')
         == [AccountParam + accountId] + (if Present(cursor) then [CursorParam + cursor.value] else [])
  {
    var prefix := Api.BaseUrl(apiUrl) + QueryStart;
    var query := StreamQuery(accountId, cursor);
    StreamUrlHasQuery(apiUrl, accountId, cursor);
    assert (prefix + query)[|prefix|..] == query;
    assert (prefix + query)[..|prefix|] == prefix;
    var account := AccountParam + accountId;
    assert '&' !in account by {
      assert forall i :: 0 <= i < |account| ==> account[i] == if i < |AccountParam| then AccountParam[i] else accountId[i - |AccountParam|];
    }
    if Present(cursor) {
      var since := CursorParam + cursor.value;
      assert '&' !in since by {
        assert forall i :: 0 <= i < |since| ==> since[i] == if i < |CursorParam| then CursorParam[i] else cursor.value[i - |CursorParam|];
      }
      assert query == account + ['&'] + since;
      SplitTwo(account, since, '&');
    } else {
      SplitOne(account, '&');
    }
  }

  // ---------------------------------------------------------------------
  // Reading the event stream

  /** What one pull on `async_iter_events` gives. */
  datatype Pulled = Yielded(event: map<string, Json>) | Ended | Broken(err: Api.ApiError)

  /** A line of the response body as the transport yields it. */
  type Bytes = seq<bv8>

  /** How one line of the stream is read. */
  datatype LineKind = Undecodable | Blank | Malformed | NotObject | Event(fields: map<string, Json>)

  /** `line.decode("utf-8").strip()`, then `json.loads`: `decode` is the UTF-8
      decoder (None where it raises) and `parse` the JSON decoder (None where
      it raises `JSONDecodeError`). */
  function ReadLine(line: Bytes, decode: Bytes -> Option<string>, parse: string -> Option<Json>): (k: LineKind)
  {
    match decode(line)
    case None => Undecodable
    case Some(s) =>
      var text := Strip(s);
      if text == "" then Blank
      else match parse(text)
        case None => Malformed
        case Some(JObj(fields)) => Event(fields)
        case Some(_) => NotObject
  }

  /** A line that does not decode is undecodable whatever it holds; exactly
      the whitespace-only decoded lines are blank. */
  lemma ReadLineBlank(line: Bytes, decode: Bytes -> Option<string>, parse: string -> Option<Json>)
    ensures ReadLine(line, decode, parse).Undecodable? <==> decode(line).None?
    ensures ReadLine(line, decode, parse).Blank? <==> decode(line).Some? && AllSpace(decode(line).value)
  {
  }

  predicate Skipped(k: LineKind)
  {
    k.Blank? || k.Malformed?
  }

  /** The `updated_at` of a `vehicle_state` event's data, when it is a string
      key of a data object. */
  function Stamp(event: map<string, Json>): Option<string>
  {
    if Get(event, "event", JNull) != JStr("vehicle_state") then None
    else match Get(event, "data", JObj(map[]))
      case JObj(d) => (if "updated_at" in d && d["updated_at"].JStr? then Some(d["updated_at"].s) else None)
      case _ => None
  }

  /** The cursor after an event passes the tracking code, or the error the
      `"updated_at" in data` test or the `data["updated_at"]` lookup raises
      when `data` is not an object. */
  function TrackCursor(event: map<string, Json>, cursor: Option<string>): (r: Result<Option<string>, Api.ApiError>)
    ensures r.Ok? && Stamp(event).Some? ==> r.value == Stamp(event)
    ensures r.Ok? && Stamp(event).None? ==> r.value == cursor
    ensures Get(event, "event", JNull) != JStr("vehicle_state") ==> r == Ok(cursor)
  {
    if Get(event, "event", JNull) != JStr("vehicle_state") then Ok(cursor)
    else match Get(event, "data", JObj(map[]))
      case JObj(d) =>
        if "updated_at" in d && d["updated_at"].JStr? then Ok(Some(d["updated_at"].s)) else Ok(cursor)
      case JStr(s) =>
        if Find(s, "updated_at") then Err(Api.OtherError("string indices must be integers")) else Ok(cursor)
      case JArr(items) =>
        if JStr("updated_at") in items then Err(Api.OtherError("list indices must be integers or slices, not str"))
        else Ok(cursor)
      case _ => Err(Api.OtherError("argument of type is not iterable"))
  }

  /** Whether reading the line stops the iteration with an error. */
  predicate Faulty(k: LineKind)
  {
    k.Undecodable? || k.NotObject? || (k.Event? && TrackCursor(k.fields, None).Err?)
  }

  lemma TrackCursorFaultIgnoresCursor(event: map<string, Json>, c: Option<string>)
    ensures TrackCursor(event, c).Err? <==> TrackCursor(event, None).Err?
  {
  }

  /** The stream's end: a transport error raised while reading, or the end of
      the body. */
  function StreamEnd(breaks: bool): Pulled
  {
    if breaks then Broken(Api.CommunicationError("Stream connection lost")) else Ended
  }

  /** One pull: its outcome, how many lines it read, and the cursor after it. */
  datatype Step = Step(outcome: Pulled, consumed: nat, cursor: Option<string>)

  /** An uninterrupted iteration: the events it yields, how it stops, and the
      cursor after it. */
  datatype Run = Run(events: seq<map<string, Json>>, end: Pulled, cursor: Option<string>)

  /** The iterator's line reader: `ReadLine` with the UTF-8 decoder `decode`
      and the JSON decoder `parse`. */
  function Reader(decode: Bytes -> Option<string>, parse: string -> Option<Json>): Bytes -> LineKind
  {
    line => ReadLine(line, decode, parse)
  }

  /** The lines as `read` reads them (`Reader(decode, parse)` for the iterator). */
  function Kinds(lines: seq<Bytes>, read: Bytes -> LineKind): (ks: seq<LineKind>)
    ensures |ks| == |lines|
  {
    seq(|lines|, i requires 0 <= i < |lines| => read(lines[i]))
  }

  /** Each line's kind is what reading that line gives. */
  lemma KindsAt(lines: seq<Bytes>, read: Bytes -> LineKind, i: nat)
    requires i < |lines|
    ensures Kinds(lines, read)[i] == read(lines[i])
  {
  }

  /** Reading the unread suffix gives the suffix of the kinds. */
  lemma KindsDrop(lines: seq<Bytes>, read: Bytes -> LineKind, n: nat)
    requires n <= |lines|
    ensures Kinds(lines[n..], read) == Kinds(lines, read)[n..]
  {
    var ks := Kinds(lines, read);
    var tail := Kinds(lines[n..], read);
    forall i | 0 <= i < |tail| ensures tail[i] == ks[n + i] {
      KindsAt(lines[n..], read, i);
      KindsAt(lines, read, n + i);
      assert lines[n..][i] == lines[n + i];
    }
  }

  lemma PullSpecSkip(kinds: seq<LineKind>, cursor: Option<string>, breaks: bool)
    requires kinds != [] && Skipped(kinds[0])
    ensures var r := PullSpec(kinds[1..], cursor, breaks);
      PullSpec(kinds, cursor, breaks) == Step(r.outcome, r.consumed + 1, r.cursor)
  {
  }

  /** One pull with the stop flag clear: blank and malformed lines are
      skipped; the first other line is yielded (tracking its cursor) or stops
      the iteration with an error; running out of lines ends it. Returns the
      outcome, the number of lines consumed and the cursor. */
  function PullSpec(kinds: seq<LineKind>, cursor: Option<string>, breaks: bool): (r: Step)
    ensures r.consumed <= |kinds|
    ensures r.outcome.Yielded? ==> 0 < r.consumed
    decreases |kinds|
  {
    if kinds == [] then Step(StreamEnd(breaks), 0, cursor)
    else match kinds[0]
      case Event(fields) =>
        (match TrackCursor(fields, cursor)
         case Err(e) => Step(Broken(e), 1, cursor)
         case Ok(c) => Step(Yielded(fields), 1, c))
      case NotObject => Step(Broken(Api.OtherError("object has no attribute 'get'")), 1, cursor)
      case Undecodable => Step(Broken(Api.OtherError("'utf-8' codec can't decode")), 1, cursor)
      case _ =>
        var r := PullSpec(kinds[1..], cursor, breaks);
        Step(r.outcome, r.consumed + 1, r.cursor)
  }

  /** A pull skips blank and malformed lines up to the line it stops at; it
      yields that line's event with that event's cursor; when every line is
      skipped it consumes them all and reports the stream's end. */
  lemma {:induction false} PullSpecYieldsFirstEvent(kinds: seq<LineKind>, cursor: Option<string>, breaks: bool)
    ensures var r := PullSpec(kinds, cursor, breaks);
      (r.outcome.Yielded? ==>
         kinds[r.consumed - 1] == Event(r.outcome.event) && TrackCursor(r.outcome.event, cursor) == Ok(r.cursor)
         && forall i :: 0 <= i < r.consumed - 1 ==> Skipped(kinds[i]))
      && ((forall i :: 0 <= i < |kinds| ==> Skipped(kinds[i])) ==> r == Step(StreamEnd(breaks), |kinds|, cursor))
    decreases |kinds|
  {
    if kinds != [] && Skipped(kinds[0]) {
      PullSpecYieldsFirstEvent(kinds[1..], cursor, breaks);
      var r := PullSpec(kinds[1..], cursor, breaks);
      if r.outcome.Yielded? {
        assert kinds[r.consumed] == kinds[1..][r.consumed - 1];
        forall i | 0 <= i < r.consumed ensures Skipped(kinds[i]) {
          if i > 0 { assert kinds[i] == kinds[1..][i - 1]; }
        }
      }
      if forall i :: 0 <= i < |kinds| ==> Skipped(kinds[i]) {
        assert forall i :: 0 <= i < |kinds[1..]| ==> Skipped(kinds[1..][i]) by {
          forall i | 0 <= i < |kinds[1..]| ensures Skipped(kinds[1..][i]) {
            assert kinds[1..][i] == kinds[i + 1];
          }
        }
      }
    }
  }

  /** The events an uninterrupted iteration yields, how it stops, and the
      cursor it leaves. */
  function Drain(kinds: seq<LineKind>, cursor: Option<string>, breaks: bool)
    : (r: Run)
    decreases |kinds|
  {
    var p := PullSpec(kinds, cursor, breaks);
    if p.outcome.Yielded? then
      var rest := Drain(kinds[p.consumed..], p.cursor, breaks);
      Run([p.outcome.event] + rest.events, rest.end, rest.cursor)
    else Run([], p.outcome, p.cursor)
  }

  /** The events among the lines, in arrival order. */
  function Accepted(kinds: seq<LineKind>): seq<map<string, Json>>
  {
    if kinds == [] then []
    else if kinds[0].Event? then [kinds[0].fields] + Accepted(kinds[1..])
    else Accepted(kinds[1..])
  }

  /** The cursor after a run of events: the `updated_at` of the last
      `vehicle_state` event that has one, or the starting cursor. */
  function LastStamp(events: seq<map<string, Json>>, cursor: Option<string>): Option<string>
  {
    if events == [] then cursor
    else LastStamp(events[1..], if Stamp(events[0]).Some? then Stamp(events[0]) else cursor)
  }

  predicate Clean(kinds: seq<LineKind>)
  {
    forall i :: 0 <= i < |kinds| ==> !Faulty(kinds[i])
  }

  lemma DrainSkips(kinds: seq<LineKind>, cursor: Option<string>, breaks: bool)
    requires kinds != [] && Skipped(kinds[0])
    ensures Drain(kinds, cursor, breaks) == Drain(kinds[1..], cursor, breaks)
  {
    var r := PullSpec(kinds[1..], cursor, breaks);
    assert PullSpec(kinds, cursor, breaks) == Step(r.outcome, r.consumed + 1, r.cursor);
    assert kinds[r.consumed + 1..] == kinds[1..][r.consumed..];
  }

  lemma DrainEvent(kinds: seq<LineKind>, cursor: Option<string>, breaks: bool, c: Option<string>)
    requires kinds != [] && kinds[0].Event? && TrackCursor(kinds[0].fields, cursor) == Ok(c)
    ensures var rest := Drain(kinds[1..], c, breaks);
      Drain(kinds, cursor, breaks) == Run([kinds[0].fields] + rest.events, rest.end, rest.cursor)
  {
    assert PullSpec(kinds, cursor, breaks) == Step(Yielded(kinds[0].fields), 1, c);
  }

  /** Without faulty lines, the iteration yields exactly the non-blank,
      well-formed lines in arrival order, stops at the stream's end, and leaves
      the cursor at the last `updated_at` among them. */
  lemma {:induction false} DrainYieldsAccepted(kinds: seq<LineKind>, cursor: Option<string>, breaks: bool)
    requires Clean(kinds)
    ensures Drain(kinds, cursor, breaks) == Run(Accepted(kinds), StreamEnd(breaks), LastStamp(Accepted(kinds), cursor))
    decreases |kinds|
  {
    if kinds != [] {
      var tail := kinds[1..];
      assert Clean(tail) by {
        forall i | 0 <= i < |tail| ensures !Faulty(tail[i]) {
          assert tail[i] == kinds[i + 1];
        }
      }
      assert !Faulty(kinds[0]);
      if Skipped(kinds[0]) {
        DrainSkips(kinds, cursor, breaks);
        DrainYieldsAccepted(tail, cursor, breaks);
      } else {
        var f := kinds[0].fields;
        TrackCursorFaultIgnoresCursor(f, cursor);
        var c := TrackCursor(f, cursor).value;
        DrainEvent(kinds, cursor, breaks, c);
        DrainYieldsAccepted(tail, c, breaks);
        assert LastStamp(Accepted(kinds), cursor) == LastStamp(Accepted(tail), c) by {
          assert Accepted(kinds) == [f] + Accepted(tail);
          assert ([f] + Accepted(tail))[1..] == Accepted(tail);
        }
      }
    }
  }

  /** `LastStamp` picks the stamp of the last stamped event. */
  lemma {:induction false} LastStampIsLast(events: seq<map<string, Json>>, cursor: Option<string>, k: nat)
    requires k < |events| && Stamp(events[k]).Some?
    requires forall m :: k < m < |events| ==> Stamp(events[m]).None?
    ensures LastStamp(events, cursor) == Stamp(events[k])
    decreases |events|
  {
    var next := if Stamp(events[0]).Some? then Stamp(events[0]) else cursor;
    if k == 0 {
      LastStampUnstamped(events[1..], next);
    } else {
      forall m | k - 1 < m < |events[1..]| ensures Stamp(events[1..][m]).None? {
        assert events[1..][m] == events[m + 1];
      }
      LastStampIsLast(events[1..], next, k - 1);
    }
  }

  /** With no stamped event the cursor stays where it was. */
  lemma {:induction false} LastStampUnstamped(events: seq<map<string, Json>>, cursor: Option<string>)
    requires forall m :: 0 <= m < |events| ==> Stamp(events[m]).None?
    ensures LastStamp(events, cursor) == cursor
    decreases |events|
  {
    if events != [] {
      forall m | 0 <= m < |events[1..]| ensures Stamp(events[1..][m]).None? {
        assert events[1..][m] == events[m + 1];
      }
      LastStampUnstamped(events[1..], cursor);
    }
  }

  // ---------------------------------------------------------------------
  // The client

  /** What `session.get` gives for the stream request. */
  datatype StreamReply =
    | Opened(status: int, retryAfter: Option<string>, reason: string, lines: seq<Bytes>, breaks: bool)
    | Unreachable(reason: string)

  /** The error `async_connect` raises for a reply: a transport failure and
      any failing status other than 401, 403 and 429 are communication errors,
      401 and 403 an authentication error, 429 a rate-limit error carrying
      the `Retry-After` value (or the error parsing it raises); a status below
      400 raises nothing. */
  function ConnectError(reply: StreamReply): (err: Option<Api.ApiError>)
    ensures reply.Unreachable? ==>
      err == Some(Api.CommunicationError("Error connecting to stream: " + reply.reason))
    ensures reply.Opened? && (reply.status == 401 || reply.status == 403) ==>
      err == Some(Api.AuthenticationError("Authentication failed for stream"))
    ensures reply.Opened? && reply.status == 429 ==>
      match Api.RetryAfter(reply.retryAfter)
      case Ok(n) => err == Some(Api.RateLimited(n))
      case Err(e) => err == Some(e)
    ensures reply.Opened? && 400 <= reply.status && reply.status !in {401, 403, 429} ==>
      err == Some(Api.CommunicationError("Error connecting to stream: " + reply.reason))
    ensures err.None? <==> reply.Opened? && reply.status < 400
  {
    match reply
    case Unreachable(why) => Some(Api.CommunicationError("Error connecting to stream: " + why))
    case Opened(status, retryAfter, why, _, _) =>
      match Api.Classify(status, retryAfter)
      case Unauthorized => Some(Api.AuthenticationError("Authentication failed for stream"))
      case Throttled(Ok(n)) => Some(Api.RateLimited(n))
      case Throttled(Err(e)) => Some(e)
      case HttpFailure => Some(Api.CommunicationError("Error connecting to stream: " + why))
      case Pass => None
  }

  /** Where `async_iter_events` stands: not yet pulled, reading, or over. */
  datatype Phase = Fresh | Reading | Over

  /** One pull once reading: with the stop flag set and a line left, the
      iteration ends at that line; otherwise it is `PullSpec` over the
      unread lines. */
  function PullOnce(lines: seq<Bytes>, cursor: Option<string>, breaks: bool, stop: bool,
                    read: Bytes -> LineKind): (r: Step)
    ensures r.consumed <= |lines|
  {
    if stop && |lines| > 0 then Step(Ended, 1, cursor)
    else PullSpec(Kinds(lines, read), cursor, breaks)
  }

  /** The reading loop of `async_iter_events`, up to the next event or the
      end of the iteration. */
  method ReadLines(lines: seq<Bytes>, cursor: Option<string>, breaks: bool, stop: bool,
                   read: Bytes -> LineKind) returns (step: Step)
    ensures step == PullOnce(lines, cursor, breaks, stop, read)
  {
    ghost var kinds := Kinds(lines, read);
    var rest := lines;
    var skipped: nat := 0;
    while true
      invariant skipped <= |lines| && rest == lines[skipped..]
      invariant var r := PullSpec(kinds[skipped..], cursor, breaks);
        PullSpec(kinds, cursor, breaks) == Step(r.outcome, r.consumed + skipped, r.cursor)
      invariant stop ==> skipped == 0
      decreases |rest|
    {
      ghost var here := PullSpec(kinds[skipped..], cursor, breaks);
      if rest == [] {
        assert kinds[skipped..] == [];
        return Step(StreamEnd(breaks), skipped, cursor);
      }
      var line := rest[0];
      rest := rest[1..];
      if stop {
        return Step(Ended, 1, cursor);
      }
      var kind := read(line);
      assert line == lines[skipped];
      KindsAt(lines, read, skipped);
      assert kinds[skipped..][0] == kind;
      if Skipped(kind) {
        PullSpecSkip(kinds[skipped..], cursor, breaks);
        assert kinds[skipped..][1..] == kinds[skipped + 1..];
        skipped := skipped + 1;
      } else if kind.Undecodable? {
        assert here == Step(Broken(Api.OtherError("'utf-8' codec can't decode")), 1, cursor);
        return Step(Broken(Api.OtherError("'utf-8' codec can't decode")), skipped + 1, cursor);
      } else if kind.NotObject? {
        assert here == Step(Broken(Api.OtherError("object has no attribute 'get'")), 1, cursor);
        return Step(Broken(Api.OtherError("object has no attribute 'get'")), skipped + 1, cursor);
      } else {
        var tracked := TrackCursor(kind.fields, cursor);
        if tracked.Err? {
          assert here == Step(Broken(tracked.error), 1, cursor);
          return Step(Broken(tracked.error), skipped + 1, cursor);
        }
        assert here == Step(Yielded(kind.fields), 1, tracked.value);
        return Step(Yielded(kind.fields), skipped + 1, tracked.value);
      }
    }
  }

  class StreamClient {
    const baseUrl: string
    const accountId: string
    /** An open response is held (`_response` is set). */
    var hasResponse: bool
    /** The response lines not read yet, and whether reading past them fails. */
    var lines: seq<Bytes>
    var breaks: bool
    var connected: bool
    var lastUpdatedAt: Option<string>
    var reconnectDelay: int
    var shouldStop: bool
    var phase: Phase
    /** How many responses have been closed. */
    var closes: nat

    ghost predicate Valid()
      reads this
    {
      MinDelay <= reconnectDelay <= MaxDelay
    }

    /** A fresh client; `initialCursor` seeds the resume cursor. */
    constructor(apiUrl: string, accountId: string, initialCursor: Option<string>)
      ensures Valid()
      ensures this.baseUrl == Api.BaseUrl(apiUrl) && this.accountId == accountId
      ensures !hasResponse && lines == [] && !breaks && !connected && !shouldStop
      ensures lastUpdatedAt == initialCursor && reconnectDelay == MinDelay
      ensures phase == Fresh && closes == 0
    {
      baseUrl := Api.BaseUrl(apiUrl);
      this.accountId := accountId;
      hasResponse := false;
      lines := [];
      breaks := false;
      connected := false;
      lastUpdatedAt := initialCursor;
      reconnectDelay := MinDelay;
      shouldStop := false;
      phase := Fresh;
      closes := 0;
    }

    /** `get_reconnect_delay`: returns the current delay and doubles the stored
        one, capped at 60. */
    method GetReconnectDelay() returns (d: int)
      requires Valid()
      modifies this
      ensures Valid()
      ensures d == old(reconnectDelay) && reconnectDelay == NextDelay(d)
      ensures MinDelay <= d <= MaxDelay
      ensures hasResponse == old(hasResponse) && lines == old(lines) && breaks == old(breaks)
      ensures connected == old(connected) && lastUpdatedAt == old(lastUpdatedAt)
      ensures shouldStop == old(shouldStop) && phase == old(phase) && closes == old(closes)
    {
      d := reconnectDelay;
      reconnectDelay := NextDelay(reconnectDelay);
    }

    /** `reset_reconnect_delay` */
    method ResetReconnectDelay()
      modifies this
      ensures Valid()
      ensures reconnectDelay == MinDelay
      ensures hasResponse == old(hasResponse) && lines == old(lines) && breaks == old(breaks)
      ensures connected == old(connected) && lastUpdatedAt == old(lastUpdatedAt)
      ensures shouldStop == old(shouldStop) && phase == old(phase) && closes == old(closes)
    {
      reconnectDelay := MinDelay;
    }

    /** `async_connect`: requests the resume URL; on success marks the client
        connected and resets the backoff; otherwise raises `ConnectError`
        without connecting. Any reply leaves its response held. */
    method Connect(reply: StreamReply) returns (url: string, err: Option<Api.ApiError>)
      requires Valid()
      modifies this
      ensures Valid()
      ensures url == StreamUrl(baseUrl, accountId, old(lastUpdatedAt))
      ensures err == ConnectError(reply)
      ensures reply.Unreachable? ==>
        hasResponse == old(hasResponse) && lines == old(lines) && breaks == old(breaks)
      ensures reply.Opened? ==> hasResponse && lines == reply.lines && breaks == reply.breaks
      ensures err.None? ==> connected && reconnectDelay == MinDelay
      ensures err.Some? ==> connected == old(connected) && reconnectDelay == old(reconnectDelay)
      ensures lastUpdatedAt == old(lastUpdatedAt) && shouldStop == old(shouldStop)
      ensures phase == old(phase) && closes == old(closes)
    {
      url := StreamUrl(baseUrl, accountId, lastUpdatedAt);
      match reply
      case Unreachable(why) =>
        err := Some(Api.CommunicationError("Error connecting to stream: " + why));
      case Opened(status, retryAfter, why, body, fails) =>
        hasResponse := true;
        lines := body;
        breaks := fails;
        match Api.Classify(status, retryAfter)
        case Unauthorized =>
          err := Some(Api.AuthenticationError("Authentication failed for stream"));
        case Throttled(Ok(n)) =>
          err := Some(Api.RateLimited(n));
        case Throttled(Err(e)) =>
          err := Some(e);
        case HttpFailure =>
          err := Some(Api.CommunicationError("Error connecting to stream: " + why));
        case Pass =>
          connected := true;
          reconnectDelay := MinDelay;
          err := None;
    }

    /** `async_disconnect`: sets the stop flag, marks the client disconnected,
        and closes and drops the response if one is held. */
    method Disconnect()
      modifies this
      ensures shouldStop && !connected && !hasResponse
      ensures closes == old(closes) + (if old(hasResponse) then 1 else 0)
      ensures lines == old(lines) && breaks == old(breaks) && lastUpdatedAt == old(lastUpdatedAt)
      ensures reconnectDelay == old(reconnectDelay) && phase == old(phase)
    {
      shouldStop := true;
      connected := false;
      if hasResponse {
        closes := closes + 1;
        hasResponse := false;
      }
    }

    /** One pull on `async_iter_events`. The first pull fails with "Stream
        not connected" when no response is held. While reading, a set stop
        flag ends the iteration at the next line; otherwise the pull is
        `PullSpec` over the unread lines. The iteration ending, either way,
        leaves the client disconnected. */
    method NextEvent(read: Bytes -> LineKind) returns (p: Pulled)
      modifies this
      ensures old(phase) == Over ==>
        p == Ended && phase == Over && lines == old(lines) && connected == old(connected)
        && lastUpdatedAt == old(lastUpdatedAt)
      ensures old(phase) == Fresh && !old(hasResponse) ==>
        p == Broken(Api.ClientError("Stream not connected")) && phase == Over
        && lines == old(lines) && connected == old(connected) && lastUpdatedAt == old(lastUpdatedAt)
      ensures old(phase) == Reading || (old(phase) == Fresh && old(hasResponse)) ==>
        var r := PullOnce(old(lines), old(lastUpdatedAt), breaks, shouldStop, read);
        p == r.outcome && lines == old(lines)[r.consumed..] && lastUpdatedAt == r.cursor
        && (p.Yielded? ==> phase == Reading && connected == old(connected))
        && (!p.Yielded? ==> phase == Over && !connected)
      ensures hasResponse == old(hasResponse) && breaks == old(breaks) && reconnectDelay == old(reconnectDelay)
      ensures shouldStop == old(shouldStop) && closes == old(closes)
    {
      if phase == Over {
        return Ended;
      }
      if phase == Fresh && !hasResponse {
        phase := Over;
        return Broken(Api.ClientError("Stream not connected"));
      }
      var step := ReadLines(lines, lastUpdatedAt, breaks, shouldStop, read);
      p := step.outcome;
      lines := lines[step.consumed..];
      lastUpdatedAt := step.cursor;
      if p.Yielded? {
        phase := Reading;
      } else {
        connected := false;
        phase := Over;
      }
    }
  }
}
