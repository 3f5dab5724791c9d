/** Vehicle commands (`commands.py`): creating a device command, polling it
    with capped geometric backoff until it is terminal or expired, and the
    one result event and notification the poll ends with. */
module Commands {
  import opened Wrappers
  import opened JsonValue
  import Text

  // ---------------------------------------------------------------------
  // Data

  /** A validated `DeviceCommand`; `expiresAt` is a clock reading. */
  datatype Command = Command(id: string, state: Option<string>, message: Option<string>,
                             response: Option<string>, errors: Option<string>, expiresAt: Option<int>)

  /** The poll's settings: `COMMAND_POLL_INITIAL_DELAY`,
      `COMMAND_POLL_BACKOFF_FACTOR`, `COMMAND_POLL_MAX_DELAY` and
      `COMMAND_TERMINAL_STATES`. */
  datatype PollConfig = PollConfig(initial: nat, factor: nat, maxDelay: nat, terminal: set<string>)

  /** The settings the poll's bounds rely on: a start within the cap and a
      factor that does not shrink the delay. */
  predicate ValidConfig(cfg: PollConfig)
  {
    cfg.initial <= cfg.maxDelay && 1 <= cfg.factor
  }

  /** What one background poll is about. */
  datatype Job = Job(commandId: string, expiresAt: Option<int>, vehicleName: string, actionName: string)

  /** One GET of the command: the validated command, or the exception. */
  datatype Poll = Fetched(command: Command) | PollFailed(reason: string)

  /** One pass of the poll loop: the clock at its head and the GET that
      follows the sleep. */
  datatype PollStep = PollStep(now: int, reply: Poll)

  /** The payload of the `navirec_command_result` event. */
  datatype ResultEvent = ResultEvent(commandId: string, vehicleName: string, actionName: string,
                                     state: Option<string>, message: Option<string>,
                                     response: Option<string>, errors: Option<string>)

  datatype Notification = Notification(title: string, message: string, id: string)

  /** What a poll emits when it ends: the event, fired with its type, and
      the notification. */
  datatype Emission = Emission(eventType: string, event: ResultEvent, notice: Notification)

  /** A poll run over the given steps: the sleeps taken, the GETs issued,
      the emissions, and whether the poll returned. */
  datatype PollRun = PollRun(sleeps: seq<nat>, gets: nat, emitted: seq<Emission>, finished: bool)

  /** A background task: its name and the poll it runs. */
  datatype Task = Task(name: string, job: Job)

  /** `execute_action`'s result: the created command and the one task it
      started. */
  datatype Launch = Launch(command: Command, task: Task)

  const EventCommandResult: string := "navirec_command_result"
  const NotificationPrefix: string := "navirec_command_"
  const Acknowledged: string := "acknowledged"
  const Expired: string := "expired"

  // ---------------------------------------------------------------------
  // Result event and notification

  /** `_fire_result_event`'s payload. */
  function ResultPayload(e: ResultEvent): (p: map<string, Json>)
    ensures p.Keys == {"command_id", "vehicle_name", "action_name", "state", "message", "response", "errors"}
    ensures p["command_id"] == JStr(e.commandId) && p["vehicle_name"] == JStr(e.vehicleName)
    ensures p["action_name"] == JStr(e.actionName)
    ensures forall k :: k in {"state", "message", "response", "errors"} ==> (p[k].JNull? || p[k].JStr?)
    ensures p["state"].JNull? <==> e.state.None?
    ensures p["state"] == Nullable(e.state) && p["message"] == Nullable(e.message)
    ensures p["response"] == Nullable(e.response) && p["errors"] == Nullable(e.errors)
  {
    map["command_id" := JStr(e.commandId), "vehicle_name" := JStr(e.vehicleName),
        "action_name" := JStr(e.actionName), "state" := Nullable(e.state),
        "message" := Nullable(e.message), "response" := Nullable(e.response),
        "errors" := Nullable(e.errors)]
  }

  /** An optional string as JSON: `None` is null. */
  function Nullable(o: Option<string>): (j: Json)
    ensures j.JNull? <==> o.None?
    ensures o.Some? ==> j == JStr(o.value)
  {
    match o
    case None => JNull
    case Some(s) => JStr(s)
  }

  /** The head every notification title shares. */
  function TitleHead(actionName: string, vehicleName: string): string
  {
    "Navirec: " + actionName + " for " + vehicleName
  }

  /** `_create_notification`: "succeeded" with the response for an
      acknowledged command, "timed out" with no message for an expired one,
      "failed" with the errors otherwise; the id is derived from the command. */
  function Notify(commandId: string, state: Option<string>, vehicleName: string, actionName: string,
                  response: Option<string>, errors: Option<string>): (n: Notification)
    ensures n.id == NotificationPrefix + commandId
    ensures state == Some(Acknowledged) <==> n.title == TitleHead(actionName, vehicleName) + " succeeded"
    ensures state == Some(Expired) <==> n.title == TitleHead(actionName, vehicleName) + " timed out"
    ensures state != Some(Acknowledged) && state != Some(Expired) <==>
      n.title == TitleHead(actionName, vehicleName) + " failed"
    ensures n.message == "" <==> state == Some(Expired)
    ensures state == Some(Acknowledged) ==> n.message == "Response: " + Text.OrElse(response, "-")
    ensures state != Some(Acknowledged) && state != Some(Expired) ==>
      n.message == "Errors: " + Text.OrElse(errors, "-")
  {
    var head := TitleHead(actionName, vehicleName);
    SuffixesDiffer(head);
    if state == Some(Acknowledged) then
      Notification(head + " succeeded", "Response: " + Text.OrElse(response, "-"), NotificationPrefix + commandId)
    else if state == Some(Expired) then
      Notification(head + " timed out", "", NotificationPrefix + commandId)
    else
      Notification(head + " failed", "Errors: " + Text.OrElse(errors, "-"), NotificationPrefix + commandId)
  }

  /** The three titles over one head are pairwise different. */
  lemma SuffixesDiffer(head: string)
    ensures head + " succeeded" != head + " timed out"
    ensures head + " succeeded" != head + " failed"
    ensures head + " timed out" != head + " failed"
  {
    assert (head + " succeeded")[|head| + 1] == 's';
    assert (head + " timed out")[|head| + 1] == 't';
    assert (head + " failed")[|head| + 1] == 'f';
  }

  /** The event and the notification for a command's end, both built from
      the same state and fields. */
  function Emit(job: Job, state: Option<string>, message: Option<string>,
                response: Option<string>, errors: Option<string>): (e: Emission)
    ensures e.eventType == EventCommandResult
    ensures e.event.commandId == job.commandId && e.event.state == state
    ensures e.notice.id == NotificationPrefix + job.commandId
  {
    Emission(EventCommandResult, ResultEvent(job.commandId, job.vehicleName, job.actionName, state, message, response, errors),
             Notify(job.commandId, state, job.vehicleName, job.actionName, response, errors))
  }

  // ---------------------------------------------------------------------
  // execute_action

  /** `execute_action`: the created command, validated, and exactly one
      background task named after it that polls it; a failure to create or
      validate is raised and starts nothing. */
  function ExecuteAction(created: Result<Command, string>, vehicleName: string, actionName: string):
    (r: Result<Launch, string>)
    ensures r.Err? <==> created.Err?
    ensures created.Err? ==> r.error == created.error
    ensures created.Ok? ==>
      r.value.command == created.value
      && r.value.task.name == NotificationPrefix + created.value.id
      && r.value.task.job == Job(created.value.id, created.value.expiresAt, vehicleName, actionName)
  {
    match created
    case Err(e) => Err(e)
    case Ok(c) => Ok(Launch(c, Task(NotificationPrefix + c.id, Job(c.id, c.expiresAt, vehicleName, actionName))))
  }

  // ---------------------------------------------------------------------
  // The poll

  /** `min(delay * factor, max)` */
  function Backoff(cfg: PollConfig, delay: nat): (d: nat)
    ensures d <= cfg.maxDelay
    ensures ValidConfig(cfg) && delay <= cfg.maxDelay ==> delay <= d
  {
    if delay * cfg.factor < cfg.maxDelay then delay * cfg.factor else cfg.maxDelay
  }

  /** The k-th delay of a poll: the initial one, backed off k times. */
  function Delay(cfg: PollConfig, k: nat): nat
  {
    if k == 0 then cfg.initial else Backoff(cfg, Delay(cfg, k - 1))
  }

  /** The expiry check at the loop head: only a set expiry can pass. */
  predicate HasExpired(expiresAt: Option<int>, now: int)
  {
    expiresAt.Some? && now >= expiresAt.value
  }

  /** A reply that ends the poll. */
  predicate Terminal(cfg: PollConfig, reply: Poll)
  {
    reply.Fetched? && reply.command.state.Some? && reply.command.state.value in cfg.terminal
  }

  /** A run with a sleep and a GET in front. */
  function After(delay: nat, r: PollRun): PollRun
  {
    PollRun([delay] + r.sleeps, r.gets + 1, r.emitted, r.finished)
  }

  /** The poll over the given steps, starting with `delay`. */
  function PollSpec(cfg: PollConfig, job: Job, steps: seq<PollStep>, delay: nat): (r: PollRun)
    decreases |steps|
  {
    if steps == [] then PollRun([], 0, [], false)
    else if HasExpired(job.expiresAt, steps[0].now) then
      PollRun([], 0, [Emit(job, Some(Expired), None, None, None)], true)
    else if Terminal(cfg, steps[0].reply) then
      var c := steps[0].reply.command;
      PollRun([delay], 1, [Emit(job, c.state, c.message, c.response, c.errors)], true)
    else
      After(delay, PollSpec(cfg, job, steps[1..], Backoff(cfg, delay)))
  }

  /** `_poll_command_status` over the given steps; running out of steps
      leaves the poll unfinished. */
  method PollCommandStatus(cfg: PollConfig, job: Job, steps: seq<PollStep>) returns (run: PollRun)
    ensures run == PollSpec(cfg, job, steps, cfg.initial)
  {
    var delay: nat := cfg.initial;
    var sleeps: seq<nat> := [];
    var gets: nat := 0;
    var i := 0;
    while i < |steps|
      invariant 0 <= i <= |steps|
      invariant var r := PollSpec(cfg, job, steps[i..], delay);
        PollSpec(cfg, job, steps, cfg.initial) == PollRun(sleeps + r.sleeps, gets + r.gets, r.emitted, r.finished)
    {
      var step := steps[i];
      assert steps[i..][0] == step && steps[i..][1..] == steps[i + 1..];
      if job.expiresAt.Some? && step.now >= job.expiresAt.value {
        var e := Emit(job, Some(Expired), None, None, None);
        assert PollSpec(cfg, job, steps[i..], delay) == PollRun([], 0, [e], true);
        return PollRun(sleeps, gets, [e], true);
      }
      sleeps := sleeps + [delay];
      gets := gets + 1;
      match step.reply {
        case PollFailed(_) =>
        case Fetched(c) =>
          if c.state.Some? && c.state.value in cfg.terminal {
            var e := Emit(job, c.state, c.message, c.response, c.errors);
            assert PollSpec(cfg, job, steps[i..], delay) == PollRun([delay], 1, [e], true);
            return PollRun(sleeps, gets, [e], true);
          }
      }
      delay := Backoff(cfg, delay);
      i := i + 1;
    }
    assert steps[i..] == [];
    return PollRun(sleeps, gets, [], false);
  }

  // ---------------------------------------------------------------------
  // Properties of the poll

  /** Every GET follows one sleep, the k-th sleep is the k-th delay of the
      capped geometric sequence, and at most one emission ends the run. */
  lemma {:induction false} PollShape(cfg: PollConfig, job: Job, steps: seq<PollStep>, k: nat)
    ensures var r := PollSpec(cfg, job, steps, Delay(cfg, k));
      |r.sleeps| == r.gets <= |steps|
      && (forall j :: 0 <= j < |r.sleeps| ==> r.sleeps[j] == Delay(cfg, k + j))
      && |r.emitted| <= 1 && (r.finished <==> |r.emitted| == 1)
    decreases |steps|
  {
    if steps != [] && !HasExpired(job.expiresAt, steps[0].now) && !Terminal(cfg, steps[0].reply) {
      PollShape(cfg, job, steps[1..], k + 1);
      var rest := PollSpec(cfg, job, steps[1..], Delay(cfg, k + 1));
      var r := After(Delay(cfg, k), rest);
      assert forall j :: 1 <= j < |r.sleeps| ==> r.sleeps[j] == rest.sleeps[j - 1];
    }
  }

  /** With initial ≤ max, every delay lies between the initial one and the
      cap, and the delays never shrink. */
  lemma {:induction false} DelayBounds(cfg: PollConfig, k: nat)
    requires ValidConfig(cfg)
    ensures cfg.initial <= Delay(cfg, k) <= cfg.maxDelay
    ensures Delay(cfg, k) <= Delay(cfg, k + 1)
  {
    if k > 0 {
      DelayBounds(cfg, k - 1);
    }
  }

  /** Every sleep the poll takes is at most the cap. */
  lemma SleepsCapped(cfg: PollConfig, job: Job, steps: seq<PollStep>)
    requires ValidConfig(cfg)
    ensures var r := PollSpec(cfg, job, steps, cfg.initial);
      forall j :: 0 <= j < |r.sleeps| ==> cfg.initial <= r.sleeps[j] <= cfg.maxDelay
  {
    PollShape(cfg, job, steps, 0);
    var r := PollSpec(cfg, job, steps, cfg.initial);
    forall j | 0 <= j < |r.sleeps|
      ensures cfg.initial <= r.sleeps[j] <= cfg.maxDelay
    {
      DelayBounds(cfg, j);
    }
  }

  /** Expired at the head: one "expired" emission (a "timed out"
      notification) and no GET. */
  lemma ExpiredFirst(cfg: PollConfig, job: Job, steps: seq<PollStep>, delay: nat)
    requires steps != [] && HasExpired(job.expiresAt, steps[0].now)
    ensures var r := PollSpec(cfg, job, steps, delay);
      r.gets == 0 && r.sleeps == [] && r.finished && |r.emitted| == 1
      && r.emitted[0].event.state == Some(Expired)
      && r.emitted[0].notice.title == TitleHead(job.actionName, job.vehicleName) + " timed out"
      && r.emitted[0].notice.message == ""
  {
  }

  /** `e` is the emission a terminal reply in this step produces. */
  predicate EmittedBy(cfg: PollConfig, job: Job, step: PollStep, e: Emission)
  {
    Terminal(cfg, step.reply)
    && e == Emit(job, step.reply.command.state, step.reply.command.message,
                 step.reply.command.response, step.reply.command.errors)
  }

  /** No step before `k` ends the poll: no expiry at its head and no
      terminal reply. */
  predicate RunsPast(cfg: PollConfig, job: Job, steps: seq<PollStep>, k: int)
    requires 0 <= k <= |steps|
  {
    forall j :: 0 <= j < k ==> !HasExpired(job.expiresAt, steps[j].now) && !Terminal(cfg, steps[j].reply)
  }

  /** The first terminal reply, with no expiry at any head up to it, ends
      the poll: exactly one emission, carrying that reply's state, message,
      response and errors, after one GET per step up to it. */
  lemma {:induction false} FirstTerminalEnds(cfg: PollConfig, job: Job, steps: seq<PollStep>, delay: nat, k: nat)
    requires k < |steps| && RunsPast(cfg, job, steps, k)
    requires !HasExpired(job.expiresAt, steps[k].now) && Terminal(cfg, steps[k].reply)
    ensures var r := PollSpec(cfg, job, steps, delay);
      r.finished && r.gets == k + 1 && |r.emitted| == 1 && EmittedBy(cfg, job, steps[k], r.emitted[0])
    decreases k
  {
    if k > 0 {
      assert !HasExpired(job.expiresAt, steps[0].now) && !Terminal(cfg, steps[0].reply);
      assert forall j :: 0 <= j < |steps| - 1 ==> steps[1..][j] == steps[j + 1];
      FirstTerminalEnds(cfg, job, steps[1..], Backoff(cfg, delay), k - 1);
    }
  }

  /** The index of the first step that ends the poll, by an expiry at its
      head or a terminal reply; `|steps|` when no step does. */
  function FirstEnd(cfg: PollConfig, job: Job, steps: seq<PollStep>): (k: nat)
    ensures k <= |steps|
  {
    if steps == [] then 0
    else if HasExpired(job.expiresAt, steps[0].now) || Terminal(cfg, steps[0].reply) then 0
    else 1 + FirstEnd(cfg, job, steps[1..])
  }

  /** Emission `e` is what step `i` ends the poll with: "expired" when the
      expiry has passed at its head, otherwise its terminal reply's. */
  predicate EndsWith(cfg: PollConfig, job: Job, step: PollStep, e: Emission)
  {
    if HasExpired(job.expiresAt, step.now) then e == Emit(job, Some(Expired), None, None, None)
    else EmittedBy(cfg, job, step, e)
  }

  /** The poll ends exactly at the first step that ends it: no step before
      it ends the poll, a run emits if and only if such a step exists, and
      then its one emission is that step's "expired" or terminal reply, with
      the fields of the command that reached it. */
  lemma {:induction false} EmissionIsTerminal(cfg: PollConfig, job: Job, steps: seq<PollStep>, delay: nat)
    ensures var r := PollSpec(cfg, job, steps, delay);
      var k := FirstEnd(cfg, job, steps);
      RunsPast(cfg, job, steps, k)
      && (r.finished <==> k < |steps|)
      && (k == |steps| ==> r.emitted == [])
      && (k < |steps| ==> |r.emitted| == 1 && EndsWith(cfg, job, steps[k], r.emitted[0]))
    decreases |steps|
  {
    if steps != [] && !HasExpired(job.expiresAt, steps[0].now) && !Terminal(cfg, steps[0].reply) {
      var tail := steps[1..];
      EmissionIsTerminal(cfg, job, tail, Backoff(cfg, delay));
      var k := FirstEnd(cfg, job, tail);
      assert forall j :: 0 <= j < |tail| ==> tail[j] == steps[j + 1];
      assert RunsPast(cfg, job, steps, k + 1);
    }
  }

  /** Without an expiry and without a terminal reply, the poll never ends:
      it issues a GET for every step and emits nothing. */
  lemma {:induction false} PollsUntilTerminal(cfg: PollConfig, job: Job, steps: seq<PollStep>, delay: nat)
    requires job.expiresAt.None?
    requires forall i :: 0 <= i < |steps| ==> !Terminal(cfg, steps[i].reply)
    ensures var r := PollSpec(cfg, job, steps, delay);
      r.gets == |steps| && r.emitted == [] && !r.finished
    decreases |steps|
  {
    if steps != [] {
      assert forall i :: 0 <= i < |steps[1..]| ==> steps[1..][i] == steps[i + 1];
      PollsUntilTerminal(cfg, job, steps[1..], Backoff(cfg, delay));
    }
  }
}
