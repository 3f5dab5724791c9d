/**
 * The streaming coordinator (custom_components/navirec/coordinator.py): the
 * per-vehicle state table, the resume cursor and its store, the event
 * dispatcher and the supervisor loop that reconnects after each failure.
 *
 * The store, the listener notification and `asyncio.sleep` are recorded
 * effects: the values saved, the table snapshots published and the waits
 * taken. Each connection attempt of the loop is an input, and so are the
 * JSON decoder and the `VehicleState` validator.
 */
module Coordinator {
  import opened Wrappers
  import opened JsonValue
  import opened Data
  import Text
  import Api
  import Stream

  /** Why an iteration of the loop stopped: an exception it raised, or the
      task being cancelled. */
  datatype Failure = Raised(error: Api.ApiError) | Cancelled

  /** What the loop does after a failure. */
  datatype Action = Sleep(seconds: int) | Exit

  const AuthWait: int := 300
  const NoClientWait: int := 5
  const UnexpectedWait: int := 30

  /** The `except` chain of `_async_stream_loop`: an authentication error
      waits five minutes, a rate-limit error its `retry_after`, a
      communication error the client's backoff (5 without a client) unless
      stopping, when the loop exits; cancellation exits; anything else waits
      30 seconds. */
  function Policy(f: Failure, stopping: bool, delay: Option<int>): (a: Action)
    ensures a.Exit? <==> f.Cancelled? || (f.error.CommunicationError? && stopping)
    ensures f.Raised? && f.error.AuthenticationError? ==> a == Sleep(AuthWait)
    ensures f.Raised? && f.error.RateLimitError? ==> a == Sleep(f.error.retryAfter)
    ensures f.Raised? && f.error.CommunicationError? && !stopping ==>
      a == Sleep(if delay.Some? then delay.value else NoClientWait)
    ensures f.Raised? && (f.error.ClientError? || f.error.OtherError?) ==> a == Sleep(UnexpectedWait)
  {
    match f
    case Cancelled => Exit
    case Raised(e) =>
      match e
      case AuthenticationError(_) => Sleep(AuthWait)
      case RateLimitError(_, wait) => Sleep(wait)
      case CommunicationError(_) =>
        if stopping then Exit
        else Sleep(if delay.Some? then delay.value else NoClientWait)
      case _ => Sleep(UnexpectedWait)
  }

  // ---------------------------------------------------------------------
  // The state the events act on

  /** The coordinator's data as the events change it: the table (`data`),
      the cursor, the initial-state flag, the values saved to the store and
      the snapshots published to listeners. */
  datatype Tracked = Tracked(
    table: map<string, VehicleState>,
    cursor: Option<string>,
    initialState: bool,
    saves: seq<string>,
    published: seq<map<string, VehicleState>>)

  /** `_async_update_stream_state`: the cursor takes the new value, which is
      saved only when it differs from the cached one. */
  function SaveCursor(t: Tracked, updatedAt: string): (r: Tracked)
    ensures r.cursor == Some(updatedAt)
    ensures r.table == t.table && r.initialState == t.initialState && r.published == t.published
  {
    if t.cursor != Some(updatedAt) then t.(cursor := Some(updatedAt), saves := t.saves + [updatedAt])
    else t
  }

  /** A save happens exactly when the value changes, with that value. */
  lemma SaveIffChanged(t: Tracked, updatedAt: string)
    ensures t.cursor != Some(updatedAt) <==> SaveCursor(t, updatedAt).saves == t.saves + [updatedAt]
    ensures t.cursor == Some(updatedAt) <==> SaveCursor(t, updatedAt).saves == t.saves
  {
    if t.cursor != Some(updatedAt) {
      assert |SaveCursor(t, updatedAt).saves| == |t.saves| + 1;
    }
  }

  /** Saving the same value twice writes it once. */
  lemma SaveTwiceWritesOnce(t: Tracked, updatedAt: string)
    ensures SaveCursor(SaveCursor(t, updatedAt), updatedAt) == SaveCursor(t, updatedAt)
  {
  }

  /** Stores a validated state under its vehicle id, when it has one, and
      publishes the new table. */
  function Store(t: Tracked, state: VehicleState): (r: Tracked)
    ensures r.cursor == t.cursor && r.saves == t.saves && r.initialState == t.initialState
  {
    var id := VehicleIdFromState(state);
    if Text.Present(id) then
      var table := t.table[id.value := state];
      t.(table := table, published := t.published + [table])
    else t
  }

  /** `_async_handle_event`. A `vehicle_state` event with truthy data
      validates it (a non-object fails validation), stores the state under
      its vehicle id and moves the cursor to a string `updated_at`;
      `initial_state_sent` sets the flag; every other event only logs. A
      validation failure raises before anything changes. */
  function Apply(t: Tracked, event: map<string, Json>, validate: map<string, Json> -> Option<VehicleState>)
    : (r: Result<Tracked, Failure>)
    ensures r.Err? ==> r.error.Raised? && r.error.error.OtherError?
  {
    var kind := Get(event, "event", JNull);
    if kind == JStr("vehicle_state") then
      var data := Get(event, "data", JObj(map[]));
      if !Truthy(data) then Ok(t)
      else if !data.JObj? then Err(Raised(Api.OtherError("invalid vehicle state")))
      else match validate(data.fields)
        case None => Err(Raised(Api.OtherError("invalid vehicle state")))
        case Some(state) =>
          var stored := Store(t, state);
          if "updated_at" in data.fields && data.fields["updated_at"].JStr? then
            Ok(SaveCursor(stored, data.fields["updated_at"].s))
          else Ok(stored)
    else if kind == JStr("initial_state_sent") then Ok(t.(initialState := true))
    else Ok(t)
  }

  /** A state event whose vehicle resolves replaces that vehicle's entry
      wholesale, leaves every other entry alone and notifies listeners once
      with the new table. */
  lemma ApplyReplacesEntry(t: Tracked, event: map<string, Json>, validate: map<string, Json> -> Option<VehicleState>,
                           data: map<string, Json>, state: VehicleState, id: string)
    requires Get(event, "event", JNull) == JStr("vehicle_state")
    requires Get(event, "data", JObj(map[])) == JObj(data) && |data| > 0
    requires validate(data) == Some(state) && VehicleIdFromState(state) == Some(id)
    ensures Apply(t, event, validate).Ok?
    ensures var r := Apply(t, event, validate).value;
      id in r.table && r.table[id] == state
      && (forall k :: k != id ==> (k in r.table <==> k in t.table))
      && (forall k :: k != id && k in t.table ==> r.table[k] == t.table[k])
      && r.published == t.published + [r.table]
  {
    assert |id| == 36;
  }

  /** A state event with falsy data changes nothing. */
  lemma ApplyEmptyData(t: Tracked, event: map<string, Json>, validate: map<string, Json> -> Option<VehicleState>)
    requires Get(event, "event", JNull) == JStr("vehicle_state")
    requires !Truthy(Get(event, "data", JObj(map[])))
    ensures Apply(t, event, validate) == Ok(t)
  {
  }

  /** A valid state whose vehicle does not resolve leaves the table and the
      listeners alone, but a string `updated_at` still moves the cursor. */
  lemma ApplyUnresolvable(t: Tracked, event: map<string, Json>, validate: map<string, Json> -> Option<VehicleState>,
                          data: map<string, Json>, state: VehicleState)
    requires Get(event, "event", JNull) == JStr("vehicle_state")
    requires Get(event, "data", JObj(map[])) == JObj(data) && |data| > 0
    requires validate(data) == Some(state) && VehicleIdFromState(state).None?
    ensures Apply(t, event, validate).Ok?
    ensures var r := Apply(t, event, validate).value;
      r.table == t.table && r.published == t.published
      && ("updated_at" in data && data["updated_at"].JStr? ==> r.cursor == Some(data["updated_at"].s))
  {
  }

  /** An event without a string `updated_at` in its data never moves the
      cursor or saves. */
  lemma ApplyWithoutStampKeepsCursor(t: Tracked, event: map<string, Json>, validate: map<string, Json> -> Option<VehicleState>)
    requires !("data" in event && event["data"].JObj? && "updated_at" in event["data"].fields
               && event["data"].fields["updated_at"].JStr?)
    requires Apply(t, event, validate).Ok?
    ensures Apply(t, event, validate).value.cursor == t.cursor
    ensures Apply(t, event, validate).value.saves == t.saves
  {
  }

  /** Events other than `vehicle_state` change nothing but the
      initial-state flag, which only `initial_state_sent` sets. */
  lemma ApplyOtherEvents(t: Tracked, event: map<string, Json>, validate: map<string, Json> -> Option<VehicleState>)
    requires Get(event, "event", JNull) != JStr("vehicle_state")
    ensures Apply(t, event, validate)
      == Ok(t.(initialState := t.initialState || Get(event, "event", JNull) == JStr("initial_state_sent")))
  {
  }

  // ---------------------------------------------------------------------
  // The loop, as a function of its inputs

  /** One iteration's input: the stream reply the connection gets, or the stream task
      being cancelled while connecting. */
  datatype Attempt = Connection(reply: Stream.StreamReply) | Cancel

  /** The data after an iteration and why it stopped, if it failed. */
  datatype Outcome = Outcome(tracked: Tracked, failure: Option<Failure>)

  /** A wait the loop took, and the failure that caused it. */
  datatype Nap = Nap(cause: Failure, seconds: int)

  /** The effect of a run of the loop: the data, the waits, and how many
      iterations ran (each ends by disconnecting its client). */
  datatype LoopRun = LoopRun(tracked: Tracked, naps: seq<Nap>, iterations: nat)

  /** How the event iteration's end fails the iteration, if it does. */
  function EndFailure(end: Stream.Pulled): (r: Option<Failure>)
    ensures r.Some? <==> end.Broken?
  {
    if end.Broken? then Some(Raised(end.err)) else None
  }

  /** Handling the yielded events in order; the first failure ends it. */
  function Session(t: Tracked, events: seq<map<string, Json>>, end: Stream.Pulled,
                   validate: map<string, Json> -> Option<VehicleState>): (o: Outcome)
    ensures o.failure.Some? ==> o.failure.value.Raised?
    decreases |events|
  {
    if events == [] then Outcome(t, EndFailure(end))
    else match Apply(t, events[0], validate)
      case Err(f) => Outcome(t, Some(f))
      case Ok(t1) => Session(t1, events[1..], end, validate)
  }

  /** One iteration of `_async_stream_loop`: connect with the coordinator's
      cursor, then handle what the stream yields. */
  function AttemptSpec(t: Tracked, a: Attempt, read: Stream.Bytes -> Stream.LineKind,
                       validate: map<string, Json> -> Option<VehicleState>): (o: Outcome)
  {
    match a
    case Cancel => Outcome(t, Some(Cancelled))
    case Connection(reply) =>
      match Stream.ConnectError(reply)
      case Some(e) => Outcome(t, Some(Raised(e)))
      case None =>
        var run := Stream.Drain(Stream.Kinds(reply.lines, read), t.cursor, reply.breaks);
        Session(t, run.events, run.end, validate)
  }

  /** The loop over a run of attempts with the stop flag clear. */
  function LoopSpec(t: Tracked, attempts: seq<Attempt>, read: Stream.Bytes -> Stream.LineKind,
                    validate: map<string, Json> -> Option<VehicleState>): (r: LoopRun)
    ensures r.iterations <= |attempts|
    decreases |attempts|
  {
    if attempts == [] then LoopRun(t, [], 0)
    else
      var o := AttemptSpec(t, attempts[0], read, validate);
      Then(o, LoopSpec(o.tracked, attempts[1..], read, validate))
  }

  /** An iteration's outcome followed by the rest of the loop: a failure goes
      through `Policy`, with the stop flag clear and the one-second backoff of
      the iteration's fresh client; an exit drops the rest. */
  function Then(o: Outcome, rest: LoopRun): (r: LoopRun)
    ensures r.iterations <= rest.iterations + 1
  {
    if Exits(o) then LoopRun(o.tracked, [], 1)
    else LoopRun(rest.tracked, Waits(o) + rest.naps, rest.iterations + 1)
  }

  /** The loop from attempt `i` is that attempt followed by the loop from
      the next. */
  lemma LoopStep(t: Tracked, attempts: seq<Attempt>, i: nat, read: Stream.Bytes -> Stream.LineKind,
                 validate: map<string, Json> -> Option<VehicleState>)
    requires i < |attempts|
    ensures var o := AttemptSpec(t, attempts[i], read, validate);
      LoopSpec(t, attempts[i..], read, validate) == Then(o, LoopSpec(o.tracked, attempts[i + 1..], read, validate))
  {
    assert attempts[i..][1..] == attempts[i + 1..];
  }

  /** `Then` seen from a loop that has already waited `made` and run `ran`
      iterations. */
  lemma ThenAfter(o: Outcome, rest: LoopRun, made: seq<Nap>, ran: nat)
    ensures var r := Then(o, rest);
      Exits(o) ==> Waits(o) == [] && r == LoopRun(o.tracked, [], 1)
    ensures var r := Then(o, rest);
      !Exits(o) ==> LoopRun(r.tracked, made + r.naps, ran + r.iterations)
                    == LoopRun(rest.tracked, (made + Waits(o)) + rest.naps, (ran + 1) + rest.iterations)
  {
    assert made + (Waits(o) + rest.naps) == (made + Waits(o)) + rest.naps;
  }

  /** The wait an iteration's failure leads to, if it leads to one. */
  function Waits(o: Outcome): (w: seq<Nap>)
    ensures |w| <= 1
    ensures w != [] ==> o.failure == Some(w[0].cause) && !Exits(o)
  {
    match o.failure
    case None => []
    case Some(f) =>
      match Policy(f, false, Some(Stream.MinDelay))
      case Exit => []
      case Sleep(n) => [Nap(f, n)]
  }

  /** The iteration's failure makes the loop exit. */
  predicate Exits(o: Outcome)
  {
    o.failure.Some? && Policy(o.failure.value, false, Some(Stream.MinDelay)).Exit?
  }

  /** The wait each kind of failure leads to, as the loop is written. Every
      iteration builds a fresh client, so a communication error always waits
      that client's first backoff, one second. */
  predicate Expected(n: Nap)
  {
    match n.cause
    case Cancelled => false
    case Raised(e) =>
      match e
      case AuthenticationError(_) => n.seconds == 300
      case RateLimitError(_, wait) => n.seconds == wait
      case CommunicationError(_) => n.seconds == 1
      case _ => n.seconds == 30
  }

  predicate AllExpected(naps: seq<Nap>)
  {
    forall k :: 0 <= k < |naps| ==> Expected(naps[k])
  }

  /** Each wait `Then` adds is the expected one for its cause. */
  lemma ThenExpected(o: Outcome, rest: LoopRun)
    requires AllExpected(rest.naps)
    ensures AllExpected(Then(o, rest).naps)
  {
    var w := Waits(o);
    if !Exits(o) && w != [] {
      var naps := w + rest.naps;
      assert Expected(naps[0]);
      assert forall k :: 1 <= k < |naps| ==> naps[k] == rest.naps[k - 1];
    }
  }

  lemma {:induction false} LoopNapsExpected(t: Tracked, attempts: seq<Attempt>, read: Stream.Bytes -> Stream.LineKind,
                                            validate: map<string, Json> -> Option<VehicleState>)
    ensures AllExpected(LoopSpec(t, attempts, read, validate).naps)
    decreases |attempts|
  {
    if attempts != [] {
      var o := AttemptSpec(t, attempts[0], read, validate);
      LoopNapsExpected(o.tracked, attempts[1..], read, validate);
      ThenExpected(o, LoopSpec(o.tracked, attempts[1..], read, validate));
    }
  }

  /** Only a cancellation ends the loop early: without one, every attempt
      runs an iteration, and a cancellation first ends it at once with no
      change. */
  lemma {:induction false} LoopRunsEveryAttempt(t: Tracked, attempts: seq<Attempt>, read: Stream.Bytes -> Stream.LineKind,
                                                validate: map<string, Json> -> Option<VehicleState>)
    ensures (forall k :: 0 <= k < |attempts| ==> attempts[k].Connection?) ==>
      LoopSpec(t, attempts, read, validate).iterations == |attempts|
    ensures attempts != [] && attempts[0].Cancel? ==>
      LoopSpec(t, attempts, read, validate) == LoopRun(t, [], 1)
    decreases |attempts|
  {
    if attempts != [] && forall k :: 0 <= k < |attempts| ==> attempts[k].Connection? {
      var o := AttemptSpec(t, attempts[0], read, validate);
      assert o.failure.Some? ==> o.failure.value.Raised?;
      assert forall k :: 0 <= k < |attempts[1..]| ==> attempts[1..][k] == attempts[k + 1];
      LoopRunsEveryAttempt(o.tracked, attempts[1..], read, validate);
    }
  }

  // ---------------------------------------------------------------------
  // The loop as written

  /** The error the loop's constructor call raises as written: it passes
      `initial_watermark=`, a keyword the stream client's constructor does not
      accept, so Python raises `TypeError` before `_stream_client` is set. */
  const KeywordError: Api.ApiError := Api.OtherError("unexpected keyword argument 'initial_watermark'")

  /** One iteration as written: whatever the server would answer, building
      the client fails; a cancellation (delivered in the previous wait) still
      ends the loop. */
  function AttemptAsWritten(t: Tracked, a: Attempt): (o: Outcome)
    ensures o.tracked == t
    ensures a.Connection? ==> o.failure == Some(Raised(KeywordError)) && Waits(o) == [Nap(Raised(KeywordError), 30)]
    ensures a.Cancel? ==> Exits(o)
  {
    match a
    case Cancel => Outcome(t, Some(Cancelled))
    case Connection(_) => Outcome(t, Some(Raised(KeywordError)))
  }

  /** The loop as written over a run of attempts. `iterations` counts the
      iterations; none of them has a client to disconnect. */
  function LoopAsWritten(t: Tracked, attempts: seq<Attempt>): (r: LoopRun)
    decreases |attempts|
  {
    if attempts == [] then LoopRun(t, [], 0)
    else
      var o := AttemptAsWritten(t, attempts[0]);
      Then(o, LoopAsWritten(o.tracked, attempts[1..]))
  }

  /** As written the loop never connects: no event is handled, so the data,
      the cursor and the saves stay as they were, and every attempt before a
      cancellation ends in the 30-second wait for an unexpected error. */
  lemma {:induction false} LoopAsWrittenIdles(t: Tracked, attempts: seq<Attempt>)
    ensures LoopAsWritten(t, attempts).tracked == t
    ensures forall k :: 0 <= k < |LoopAsWritten(t, attempts).naps| ==>
      LoopAsWritten(t, attempts).naps[k] == Nap(Raised(KeywordError), 30)
    ensures (forall k :: 0 <= k < |attempts| ==> attempts[k].Connection?) ==>
      |LoopAsWritten(t, attempts).naps| == |attempts|
    ensures attempts != [] && attempts[0].Cancel? ==> LoopAsWritten(t, attempts) == LoopRun(t, [], 1)
    decreases |attempts|
  {
    if attempts != [] {
      var o := AttemptAsWritten(t, attempts[0]);
      var rest := LoopAsWritten(t, attempts[1..]);
      LoopAsWrittenIdles(t, attempts[1..]);
      assert forall k :: 0 <= k < |attempts[1..]| ==> attempts[1..][k] == attempts[k + 1];
      if attempts[0].Connection? {
        var naps := Waits(o) + rest.naps;
        assert forall k :: 1 <= k < |naps| ==> naps[k] == rest.naps[k - 1];
      }
    }
  }

  // ---------------------------------------------------------------------
  // The coordinator

  class NavirecCoordinator {
    const apiUrl: string
    const accountId: string
    const accountName: string
    var client: Stream.StreamClient?
    /** A stream task exists (`_stream_task` is set). */
    var taskRunning: bool
    var shouldStop: bool
    /** `data`: the vehicle states by vehicle id. */
    var table: map<string, VehicleState>
    var cursor: Option<string>
    var initialState: bool
    /** The values written to the store, in order. */
    var saves: seq<string>
    /** The tables handed to listeners, in order. */
    var published: seq<map<string, VehicleState>>
    /** The waits the loop took, in order. */
    var naps: seq<Nap>
    /** How many times the loop disconnected its client. */
    var disconnects: nat

    ghost function View(): Tracked
      reads this
    {
      Tracked(table, cursor, initialState, saves, published)
    }

    constructor(apiUrl: string, accountId: string, accountName: string)
      ensures this.apiUrl == apiUrl && this.accountId == accountId && this.accountName == accountName
      ensures client == null && !taskRunning && !shouldStop
      ensures View() == Tracked(map[], None, false, [], [])
      ensures naps == [] && disconnects == 0
    {
      this.apiUrl := apiUrl;
      this.accountId := accountId;
      this.accountName := accountName;
      client := null;
      taskRunning := false;
      shouldStop := false;
      table := map[];
      cursor := None;
      initialState := false;
      saves := [];
      published := [];
      naps := [];
      disconnects := 0;
    }

    /** `connected`: false without a stream client, otherwise the client's
        own connection flag. */
    predicate Connected(): (b: bool)
      reads this, client
      ensures client == null ==> !b
      ensures client != null ==> (b <==> client.connected)
    {
      client != null && client.connected
    }

    /** `get_vehicle_state`: the entry for the id, or None; never fails. */
    function GetVehicleState(vehicleId: string): (r: Option<VehicleState>)
      reads this
      ensures r.Some? <==> vehicleId in table
      ensures r.Some? ==> r.value == table[vehicleId]
    {
      if vehicleId in table then Some(table[vehicleId]) else None
    }

    /** `_async_update_stream_state` */
    method UpdateStreamState(updatedAt: string)
      modifies this
      ensures View() == SaveCursor(old(View()), updatedAt)
      ensures client == old(client) && taskRunning == old(taskRunning) && shouldStop == old(shouldStop)
      ensures naps == old(naps) && disconnects == old(disconnects)
    {
      if cursor != Some(updatedAt) {
        cursor := Some(updatedAt);
        saves := saves + [updatedAt];
      }
    }

    /** `_async_handle_event`: the effect `Apply` describes, or its failure
        with nothing changed. */
    method HandleEvent(event: map<string, Json>, validate: map<string, Json> -> Option<VehicleState>)
      returns (failure: Option<Failure>)
      modifies this
      ensures match Apply(old(View()), event, validate)
        case Ok(t) => failure.None? && View() == t
        case Err(f) => failure == Some(f) && View() == old(View())
      ensures client == old(client) && taskRunning == old(taskRunning) && shouldStop == old(shouldStop)
      ensures naps == old(naps) && disconnects == old(disconnects)
    {
      var kind := Get(event, "event", JNull);
      if kind == JStr("vehicle_state") {
        var data := Get(event, "data", JObj(map[]));
        if Truthy(data) {
          if !data.JObj? {
            return Some(Raised(Api.OtherError("invalid vehicle state")));
          }
          var state := validate(data.fields);
          if state.None? {
            return Some(Raised(Api.OtherError("invalid vehicle state")));
          }
          var id := VehicleIdFromState(state.value);
          if Text.Present(id) {
            table := table[id.value := state.value];
            published := published + [table];
          }
          if "updated_at" in data.fields && data.fields["updated_at"].JStr? {
            UpdateStreamState(data.fields["updated_at"].s);
          }
        }
      } else if kind == JStr("initial_state_sent") {
        initialState := true;
      }
      return None;
    }

    /** `_async_load_stream_state`: the stored `last_updated_at`, when the
        stored data has one, becomes the cursor. */
    method LoadStreamState(stored: Option<map<string, Json>>)
      modifies this
      ensures cursor == Loaded(stored, old(cursor))
      ensures table == old(table) && initialState == old(initialState) && saves == old(saves)
      ensures published == old(published) && client == old(client) && taskRunning == old(taskRunning)
      ensures shouldStop == old(shouldStop) && naps == old(naps) && disconnects == old(disconnects)
    {
      if stored.Some? && |stored.value| > 0 && "last_updated_at" in stored.value
         && stored.value["last_updated_at"].JStr? {
        cursor := Some(stored.value["last_updated_at"].s);
      }
    }

    /** `async_start_streaming`: nothing when a task exists; otherwise loads
        the cursor, clears the stop flag and starts the stream task. */
    method StartStreaming(stored: Option<map<string, Json>>)
      modifies this
      ensures old(taskRunning) ==> unchanged(this)
      ensures !old(taskRunning) ==>
        taskRunning && !shouldStop && cursor == Loaded(stored, old(cursor))
        && table == old(table) && saves == old(saves) && published == old(published)
        && client == old(client) && initialState == old(initialState)
        && naps == old(naps) && disconnects == old(disconnects)
    {
      if taskRunning {
        return;
      }
      LoadStreamState(stored);
      shouldStop := false;
      taskRunning := true;
    }

    /** `async_stop_streaming`: sets the stop flag, disconnects the client if
        there is one, and clears both the client and the stream task. */
    method StopStreaming()
      modifies this, client
      ensures shouldStop && client == null && !taskRunning && !Connected()
      ensures old(client) != null ==> old(client).shouldStop && !old(client).connected && !old(client).hasResponse
      ensures View() == old(View()) && naps == old(naps) && disconnects == old(disconnects)
    {
      shouldStop := true;
      if client != null {
        client.Disconnect();
      }
      client := null;
      taskRunning := false;
    }

    /** The `async for` over the client's events: each event is handled in
        turn until the iteration ends or handling fails. */
    method Consume(c: Stream.StreamClient, read: Stream.Bytes -> Stream.LineKind,
                   validate: map<string, Json> -> Option<VehicleState>) returns (failure: Option<Failure>)
      requires c.phase == Stream.Fresh && c.hasResponse && !c.shouldStop && !shouldStop
      modifies this, c
      ensures var run := Stream.Drain(Stream.Kinds(old(c.lines), read), old(c.lastUpdatedAt), old(c.breaks));
        Session(old(View()), run.events, run.end, validate) == Outcome(View(), failure)
      ensures c.reconnectDelay == old(c.reconnectDelay) && c.closes == old(c.closes) && !c.shouldStop
      ensures client == old(client) && taskRunning == old(taskRunning) && shouldStop == old(shouldStop)
      ensures naps == old(naps) && disconnects == old(disconnects)
    {
      ghost var goal := Session(View(), Stream.Drain(Stream.Kinds(c.lines, read), c.lastUpdatedAt, c.breaks).events,
                                Stream.Drain(Stream.Kinds(c.lines, read), c.lastUpdatedAt, c.breaks).end, validate);
      while true
        invariant c.phase != Stream.Over && c.hasResponse && !c.shouldStop
        invariant c.breaks == old(c.breaks) && c.reconnectDelay == old(c.reconnectDelay) && c.closes == old(c.closes)
        invariant var run := Stream.Drain(Stream.Kinds(c.lines, read), c.lastUpdatedAt, c.breaks);
          goal == Session(View(), run.events, run.end, validate)
        invariant client == old(client) && taskRunning == old(taskRunning) && shouldStop == old(shouldStop)
        invariant naps == old(naps) && disconnects == old(disconnects)
        decreases |c.lines|
      {
        ghost var kinds := Stream.Kinds(c.lines, read);
        ghost var step := Stream.PullSpec(kinds, c.lastUpdatedAt, c.breaks);
        ghost var before := c.lines;
        var p := c.NextEvent(read);
        assert p == step.outcome && c.lines == before[step.consumed..];
        match p
        case Yielded(event) =>
          Stream.KindsDrop(before, read, step.consumed);
          if shouldStop {
            return None;
          }
          failure := HandleEvent(event, validate);
          if failure.Some? {
            return;
          }
        case Ended =>
          return None;
        case Broken(e) =>
          return Some(Raised(e));
      }
    }

    /** The body of one iteration up to its failure, on a fresh client `c`
        built from the cursor: the connection, the backoff reset and the
        events. */
    method RunAttempt(c: Stream.StreamClient, a: Attempt, read: Stream.Bytes -> Stream.LineKind,
                      validate: map<string, Json> -> Option<VehicleState>) returns (failure: Option<Failure>)
      requires c.phase == Stream.Fresh && !c.shouldStop && !shouldStop
      requires c.lastUpdatedAt == cursor && c.reconnectDelay == Stream.MinDelay
      modifies this, c
      ensures Outcome(View(), failure) == AttemptSpec(old(View()), a, read, validate)
      ensures c.Valid() && c.reconnectDelay == Stream.MinDelay && !c.shouldStop
      ensures client == old(client) && taskRunning == old(taskRunning) && !shouldStop
      ensures naps == old(naps) && disconnects == old(disconnects)
    {
      match a {
        case Cancel =>
          failure := Some(Cancelled);
        case Connection(reply) =>
          var _, err := c.Connect(reply);
          if err.Some? {
            failure := Some(Raised(err.value));
          } else {
            c.ResetReconnectDelay();
            failure := Consume(c, read, validate);
          }
      }
    }

    /** The `except` clauses of an iteration: a failure goes through `Policy`
        with the backoff of the iteration's client `c`, and a sleep is
        recorded. */
    method Settle(c: Stream.StreamClient, failure: Option<Failure>) returns (exit: bool)
      requires c.Valid() && c.reconnectDelay == Stream.MinDelay && !shouldStop
      modifies this`naps, c
      ensures naps == old(naps) + Waits(Outcome(View(), failure)) && exit == Exits(Outcome(View(), failure))
      ensures c.lines == old(c.lines) && c.hasResponse == old(c.hasResponse) && c.connected == old(c.connected)
      ensures c.shouldStop == old(c.shouldStop) && c.phase == old(c.phase) && c.closes == old(c.closes)
    {
      exit := false;
      if failure.Some? {
        var delay: Option<int> := None;
        if failure.value.Raised? && failure.value.error.CommunicationError? && !shouldStop {
          var d := c.GetReconnectDelay();
          delay := Some(d);
        }
        var action := Policy(failure.value, shouldStop, delay);
        assert action == Policy(failure.value, false, Some(Stream.MinDelay));
        if action.Sleep? {
          naps := naps + [Nap(failure.value, action.seconds)];
        }
        exit := action.Exit?;
      }
    }

    /** One iteration of `_async_stream_loop` with the stop flag clear: a
        fresh client from the cursor runs the attempt; a failure goes through
        `Policy`; the client is always disconnected at the end. */
    method Iterate(a: Attempt, read: Stream.Bytes -> Stream.LineKind,
                   validate: map<string, Json> -> Option<VehicleState>) returns (exit: bool)
      requires !shouldStop
      modifies this
      ensures var o := AttemptSpec(old(View()), a, read, validate);
        View() == o.tracked && naps == old(naps) + Waits(o) && exit == Exits(o)
      ensures disconnects == old(disconnects) + 1
      ensures fresh(client) && !client.connected
      ensures taskRunning == old(taskRunning) && !shouldStop
    {
      var c := new Stream.StreamClient(apiUrl, accountId, cursor);
      client := c;
      var failure := RunAttempt(c, a, read, validate);
      exit := Settle(c, failure);
      c.Disconnect();
      disconnects := disconnects + 1;
    }

    /** `_async_stream_loop` over a run of attempts: one `Iterate` per
        attempt until an exit or the attempts run out. With the stop flag set
        nothing runs. */
    method RunStreamLoop(attempts: seq<Attempt>, read: Stream.Bytes -> Stream.LineKind,
                         validate: map<string, Json> -> Option<VehicleState>)
      modifies this
      ensures old(shouldStop) ==> unchanged(this)
      ensures !old(shouldStop) ==>
        var r := LoopSpec(old(View()), attempts, read, validate);
        View() == r.tracked && naps == old(naps) + r.naps && disconnects == old(disconnects) + r.iterations
        && !shouldStop && (attempts != [] ==> !Connected())
      ensures taskRunning == old(taskRunning)
    {
      if shouldStop {
        return;
      }
      ghost var goal := LoopSpec(View(), attempts, read, validate);
      ghost var made: seq<Nap> := [];
      ghost var ran: nat := 0;
      var i := 0;
      while !shouldStop && i < |attempts|
        invariant 0 <= i <= |attempts| && !shouldStop
        invariant var r := LoopSpec(View(), attempts[i..], read, validate);
          goal == LoopRun(r.tracked, made + r.naps, ran + r.iterations)
        invariant naps == old(naps) + made && disconnects == old(disconnects) + ran
        invariant taskRunning == old(taskRunning)
        invariant i > 0 ==> client != null && !client.connected
        decreases |attempts| - i
      {
        ghost var o := AttemptSpec(View(), attempts[i], read, validate);
        ghost var rest := LoopSpec(o.tracked, attempts[i + 1..], read, validate);
        LoopStep(View(), attempts, i, read, validate);
        ThenAfter(o, rest, made, ran);
        var exit := Iterate(attempts[i], read, validate);
        made := made + Waits(o);
        ran := ran + 1;
        if exit {
          return;
        }
        i := i + 1;
      }
    }

    /** One iteration as written: building the client raises, so no client
        is connected or disconnected and only the wait is taken. */
    method IterateAsWritten(a: Attempt) returns (exit: bool)
      requires !shouldStop
      modifies this`naps
      ensures var o := AttemptAsWritten(View(), a);
        naps == old(naps) + Waits(o) && exit == Exits(o)
    {
      var failure := if a.Cancel? then Cancelled else Raised(KeywordError);
      var action := Policy(failure, shouldStop, None);
      if action.Sleep? {
        naps := naps + [Nap(failure, action.seconds)];
      }
      exit := action.Exit?;
    }

    /** `_async_stream_loop` as written: the iterations of `LoopAsWritten`,
        with the data, the client and the disconnect count untouched. */
    method RunStreamLoopAsWritten(attempts: seq<Attempt>)
      modifies this`naps
      ensures old(shouldStop) ==> naps == old(naps)
      ensures !old(shouldStop) ==> naps == old(naps) + LoopAsWritten(View(), attempts).naps
    {
      if shouldStop {
        return;
      }
      ghost var goal := LoopAsWritten(View(), attempts);
      ghost var made: seq<Nap> := [];
      var i := 0;
      while i < |attempts|
        invariant 0 <= i <= |attempts|
        invariant goal.naps == made + LoopAsWritten(View(), attempts[i..]).naps
        invariant naps == old(naps) + made
        decreases |attempts| - i
      {
        ghost var o := AttemptAsWritten(View(), attempts[i]);
        ghost var rest := LoopAsWritten(View(), attempts[i + 1..]);
        assert attempts[i..][1..] == attempts[i + 1..];
        assert LoopAsWritten(View(), attempts[i..]) == Then(o, rest);
        var exit := IterateAsWritten(attempts[i]);
        if exit {
          return;
        }
        assert made + (Waits(o) + rest.naps) == (made + Waits(o)) + rest.naps;
        made := made + Waits(o);
        i := i + 1;
      }
    }
  }

  /** The cursor `_async_load_stream_state` leaves: the stored string
      `last_updated_at` when the stored data is non-empty and has one, else
      the current cursor. */
  function Loaded(stored: Option<map<string, Json>>, current: Option<string>): (r: Option<string>)
    ensures (stored.None? || "last_updated_at" !in stored.value) ==> r == current
    ensures stored.Some? && "last_updated_at" in stored.value && stored.value["last_updated_at"].JStr? ==>
      r == Some(stored.value["last_updated_at"].s)
  {
    if stored.Some? && |stored.value| > 0 && "last_updated_at" in stored.value
       && stored.value["last_updated_at"].JStr? then
      Some(stored.value["last_updated_at"].s)
    else current
  }
}
