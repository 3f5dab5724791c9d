# Navirec integration core, modelled in Dafny

This project models the core of the Navirec Home Assistant integration. It
covers:

- the streaming client that reads a fleet's vehicle states as
  newline-delimited JSON;
- the coordinator that keeps the per-vehicle state table and the resume
  cursor, and reconnects after failures;
- the REST client's page concatenation and status handling;
- the vehicle-command poller;
- the service that runs a vehicle action;
- the account selection of the config flow;
- the catalog indexing and unloading of a config entry;
- two developer scripts: the OpenAPI schema filter and the fixture
  downloader.

Every source file has its own module:

| module | file |
|---|---|
| `Api` | the REST client in `api.py` |
| `Stream` | the `NavirecStreamClient` of `api.py` |
| `Coordinator` | `coordinator.py` |
| `Commands` | `commands.py` |
| `Data` | `data.py` |
| `Services` | `services.py` |
| `ConfigFlow` | `config_flow.py` |
| `Setup` | `__init__.py` |
| `GenerateModels` | `scripts/generate_models.py` |
| `DownloadFixtures` | `scripts/download_fixtures.py` |

Shared modules model the Python behaviour the code relies on:

- `Text`: `str.strip`, `rstrip`, `split`, `int()` and `str()`;
- `JsonValue`: JSON values, `dict.get` and truthiness;
- `Uuid`: the UUID regular expression;
- `Wrappers`: `Option` and `Result`.

Code that updates state in place is modelled imperatively:

- `Stream.StreamClient` and `Coordinator.NavirecCoordinator` are classes
  whose methods change their fields.
- The line-reading loop, the pagination loop, the catalog loops, the
  `$ref` worklist and the fixture fetch loop are methods with loop
  invariants.
- Each method is proved equal to a specification function. Lemmas then
  prove what the source promises about that function.

The I/O is taken as input, so nothing here performs it:

- HTTP replies are values: a status, the headers, the body and the lines
  of the stream as bytes.
- The UTF-8 decoder and the JSON decoder are parameters, and so is
  pydantic's `VehicleState` validation.
- The clock of the command poller is an integer per loop pass.
- The connection attempts of the supervisor loop are a sequence.

Effects are recorded in the model's state:

- the values written to the Home Assistant store;
- the tables handed to listeners;
- the sleeps taken;
- the disconnects done;
- the events and notifications emitted.

One source inconsistency shapes the model. `coordinator.py:118-124`
builds the stream client with an `initial_watermark` argument, but the
client's constructor (`api.py:194-210`) has no such parameter. The
repository's test suite builds it with `last_updated_at` instead. The
model keeps both halves (see "## Findings"):

- As written, the call raises `TypeError` on every iteration.
  `Coordinator.AttemptAsWritten`, `Coordinator.LoopAsWritten` and the
  methods `IterateAsWritten` and `RunStreamLoopAsWritten` model that loop.
  It never connects, never disconnects a client and only waits 30 seconds.
- As intended, the model's `Stream.StreamClient` constructor takes an
  optional initial cursor that seeds `_last_updated_at`. The coordinator
  passes its own cursor there. `Iterate`, `RunStreamLoop` and the lemmas
  about `LoopSpec` describe this loop.

## Model

| member | source | states |
|---|---|---|
| Uuid.FindUuidFrom | custom_components/navirec/data.py:28-30 | the leftmost position at or after `from` where the 8-4-4-4-12 lowercase-hex pattern matches, or None when it matches nowhere there |
| Uuid.ExtractUuid | custom_components/navirec/data.py:33-46 | None exactly when the pattern matches nowhere; otherwise a 36-character canonical id that occurs in the URL |
| Uuid.ExtractUuidLeftmost | custom_components/navirec/data.py:44-45 | the id returned is the slice at the leftmost match position |
| Uuid.ExtractUuidOfPath | custom_components/navirec/data.py:33-46 | a URL made of a prefix with no match, an id and a suffix gives that id back |
| Api.ExtractUuidOrError | custom_components/navirec/api.py:47-56 | succeeds exactly when `extract_uuid_from_url` finds an id and returns that id; otherwise fails with "Could not extract UUID from URL: <url>" |
| Api.RetryAfter | custom_components/navirec/api.py:185 | a missing header gives 60; a header `int()` accepts gives its value; any other header raises a `ValueError`, which is not an API error |
| Api.RetryAfterOfDecimal | custom_components/navirec/api.py:185 | the decimal text of any integer is read back as that integer |
| Api.Classify | custom_components/navirec/api.py:179-188 | 401 and 403 are authentication failures, 429 is throttling carrying the `Retry-After` reading, other statuses of 400 and up are HTTP failures, and only statuses below 400 pass |
| Api.RateLimited | custom_components/navirec/api.py:38-44 | the rate-limit error carries the wait it was built with |
| Api.VerifyResponse | custom_components/navirec/api.py:179-188 | passes exactly below 400; 401/403 give "Invalid credentials"; 429 gives a rate-limit error with the header's wait, or 60 when absent; other failures become communication errors |
| Api.RateLimitCarriesRetryAfter | custom_components/navirec/api.py:184-187 | a 429 whose `Retry-After` is the decimal text of n is a rate-limit error of n seconds, and one without the header is one of 60 seconds |
| Api.Request | custom_components/navirec/api.py:154-188 | a response below 400 is returned unchanged; a response of 400 or more fails with the error `VerifyResponse` gives; timeouts and transport failures become communication errors |
| Api.Extension | custom_components/navirec/api.py:126 | `extend` takes a list's items, a dictionary's keys (each once, all of them) or a string's characters, and cannot iterate any other value |
| Api.AngleSearch | custom_components/navirec/api.py:143 | the leftmost match of `<([^>]+)>` at or after `from`, and no match before it |
| Api.AngleTarget | custom_components/navirec/api.py:143-145 | the group of the match is non-empty, holds no `>`, and occurs as `<group>` in the part |
| Api.FirstNextLinkIsFirstAccepted | custom_components/navirec/api.py:139-146 | the next URL is absent exactly when no comma-separated part mentions `rel="next"` with a `<...>`; otherwise it is the target of the first such part |
| Api.AngleTargetNonEmpty | custom_components/navirec/api.py:143-145 | a next URL is never empty, so the pagination loop follows it |
| Api.NextPageUrl | custom_components/navirec/api.py:139-146 | the link-walking loop returns the next URL of the split `Link` header |
| Api.Page | custom_components/navirec/api.py:119-152 | a request error propagates; a page succeeds exactly for a response below 400 whose body `extend` can iterate, giving `Extension` of the body and the next URL of its `Link` header (empty when absent); any other body is a non-API error |
| Api.GetPage | custom_components/navirec/api.py:130-152 | the method, with its link-walking loop, computes `Page` |
| Api.GetPaginated | custom_components/navirec/api.py:119-128 | the pagination loop over the server's replies equals `Paged`, which fetches until a page has no next link and stops at the first error |
| Api.PagedConcatenates | custom_components/navirec/api.py:119-128 | good pages that each link on, except the last, yield the in-order concatenation of their items |
| Api.ObjectPageValidates | custom_components/navirec/api.py:82-150 | a single accepted page whose body is a non-empty object yields its keys, so token validation answers true |
| Api.BaseUrl | custom_components/navirec/api.py:69 | the base URL is a prefix of the configured one and does not end in "/" |
| Api.AccountsUrl | custom_components/navirec/api.py:90-92 | the accounts URL is the base URL followed by `/accounts/`, with no query |
| Api.VehicleParams | custom_components/navirec/api.py:98-102 | one parameter per present filter: `account=<id>` first when an id is given, `active=true` last when requested |
| Api.VehiclesQuery | custom_components/navirec/api.py:104-106 | with any parameter, the vehicles URL is the path, `?`, and a query that splits on `&` back into exactly the parameters |
| Api.SensorsUrl | custom_components/navirec/api.py:114-116 | the sensors URL is the sensors path followed by `?account=<id>` when an account id is given and by nothing otherwise |
| Api.SensorsQuery | custom_components/navirec/api.py:114-116 | with an account id free of `&`, the sensors query splits into exactly the one parameter `account=<id>` |
| Api.ValidateToken | custom_components/navirec/api.py:82-88 | true exactly when the accounts list is non-empty; false for an empty list or an authentication error; any other error propagates |
| Stream.NextDelay | custom_components/navirec/api.py:315-322 | the stored delay doubles or reaches the cap, and stays within [1, 60] without shrinking |
| Stream.DelayAtIsCappedPower | custom_components/navirec/api.py:315-322 | from a fresh client the k-th delay returned is 2^k, saturating at 60 |
| Stream.StreamUrl | custom_components/navirec/api.py:233-237 | the URL starts with the base, the stream path and the account id, and is longer exactly when a non-empty cursor is given |
| Stream.StreamUrlHasQuery | custom_components/navirec/api.py:233-237 | the URL is the base without trailing "/", the stream path, then the query |
| Stream.StreamUrlQuery | custom_components/navirec/api.py:233-237 | the query splits on `&` into `account=<id>`, followed by `updated_at__gt=<cursor>` exactly when the cursor is non-empty |
| Stream.ReadLineBlank | custom_components/navirec/api.py:287-290 | a line is undecodable exactly when UTF-8 decoding fails, and skipped as blank exactly when it decodes to whitespace only |
| Stream.TrackCursor | custom_components/navirec/api.py:298-302 | a `vehicle_state` event with a string `updated_at` moves the cursor to it; other events leave the cursor unchanged |
| Stream.TrackCursorFaultIgnoresCursor | custom_components/navirec/api.py:298-302 | whether tracking fails depends on the event only, not on the cursor |
| Stream.PullSpecYieldsFirstEvent | custom_components/navirec/api.py:284-304 | a pull skips blank and malformed lines, yields the first event or stops at the first faulty line or the end, and has consumed exactly the lines up to it |
| Stream.DrainYieldsAccepted | custom_components/navirec/api.py:284-304 | without faulty lines the iteration yields exactly the well-formed non-blank lines in arrival order, ends as the stream ends, and leaves the cursor `LastStamp` gives |
| Stream.LastStampIsLast | custom_components/navirec/api.py:298-302 | the cursor after the events is the `updated_at` of the last stamped `vehicle_state` event |
| Stream.LastStampUnstamped | custom_components/navirec/api.py:298-302 | with no stamped event the cursor stays as it was |
| Stream.ConnectError | custom_components/navirec/api.py:248-264 | a transport failure is a communication error, 401/403 an authentication error, 429 a rate-limit error with the `Retry-After` wait, other statuses of 400 and up a communication error, and there is no error below 400 |
| Stream.ReadLines | custom_components/navirec/api.py:284-304 | the reading loop computes one pull (`PullOnce`): a set stop flag ends it before the next line; an undecodable line, like a non-object one, ends the iteration with a non-API error |
| Stream.StreamClient.constructor | custom_components/navirec/api.py:194-210 | a fresh client: no response, not connected, stop flag clear, delay 1, the cursor seeded, the base URL without trailing "/" |
| Stream.StreamClient.GetReconnectDelay | custom_components/navirec/api.py:315-322 | returns the stored delay, which lies in [1, 60], and stores the next one; nothing else changes |
| Stream.StreamClient.ResetReconnectDelay | custom_components/navirec/api.py:324-326 | the delay is back to 1; nothing else changes |
| Stream.StreamClient.Connect | custom_components/navirec/api.py:231-264 | requests the resume URL and fails as `ConnectError` says; only success marks the client connected and resets the delay; the cursor and stop flag are untouched |
| Stream.StreamClient.Disconnect | custom_components/navirec/api.py:266-275 | sets the stop flag, marks the client disconnected, and closes a held response once and drops it |
| Stream.StreamClient.NextEvent | custom_components/navirec/api.py:277-313 | without a response the first pull fails with "Stream not connected"; otherwise a pull is `PullOnce` over the unread lines, updating the cursor; when the iteration ends, either way, the client is disconnected |
| Coordinator.Policy | custom_components/navirec/coordinator.py:136-177 | authentication waits 300; a rate limit waits its `retry_after`; a communication error exits when stopping, else waits the client's backoff or 5 without a client; cancellation exits; anything else waits 30 |
| Coordinator.SaveCursor | custom_components/navirec/coordinator.py:251-255 | the cursor takes the new value and nothing but the save log changes |
| Coordinator.SaveIffChanged | custom_components/navirec/coordinator.py:251-255 | a save, of the new value, happens exactly when the value changes |
| Coordinator.SaveTwiceWritesOnce | custom_components/navirec/coordinator.py:251-255 | saving the same value twice has the effect of saving it once |
| Coordinator.Store | custom_components/navirec/coordinator.py:194-197 | storing a state never touches the cursor, the save log or the initial-state flag |
| Coordinator.Apply | custom_components/navirec/coordinator.py:183-218 | handling an event fails only by the state's validation failing |
| Coordinator.ApplyReplacesEntry | custom_components/navirec/coordinator.py:190-197 | a resolvable state replaces its vehicle's entry wholesale, keeps every other entry, and notifies listeners once with the new table |
| Coordinator.ApplyEmptyData | custom_components/navirec/coordinator.py:191-192 | a `vehicle_state` event with falsy data changes nothing |
| Coordinator.ApplyUnresolvable | custom_components/navirec/coordinator.py:193-201 | a state without a resolvable vehicle leaves the table and listeners alone, but its `updated_at` still moves the cursor |
| Coordinator.ApplyWithoutStampKeepsCursor | custom_components/navirec/coordinator.py:200-201 | an event without `updated_at` never moves the cursor or saves |
| Coordinator.ApplyOtherEvents | custom_components/navirec/coordinator.py:187-218 | other events change nothing except that `initial_state_sent` sets the initial-state flag |
| Coordinator.EndFailure | custom_components/navirec/coordinator.py:131-134 | the end of the event iteration fails the iteration exactly when the stream broke |
| Coordinator.Session | custom_components/navirec/coordinator.py:131-134 | handling the events in order ends only by a raised error |
| Coordinator.LoopSpec | custom_components/navirec/coordinator.py:115-181 | the loop runs at most one iteration per attempt |
| Coordinator.Waits | custom_components/navirec/coordinator.py:136-177 | at most one wait per iteration, caused by its failure, and never on an exit |
| Coordinator.LoopStep | custom_components/navirec/coordinator.py:115-181 | the loop from an attempt is that attempt's iteration followed by the loop over the rest |
| Coordinator.LoopNapsExpected | custom_components/navirec/coordinator.py:136-177 | every wait the loop takes is the one its cause calls for: 300, `retry_after`, 1 (the fresh client's first backoff) or 30 |
| Coordinator.LoopRunsEveryAttempt | custom_components/navirec/coordinator.py:115-181 | without cancellation every attempt runs an iteration; a cancellation first ends the loop at once with no change and no wait |
| Coordinator.AttemptAsWritten | custom_components/navirec/coordinator.py:118-124 | as written, building the client fails with the keyword error whatever the server would answer, leaving the data alone and waiting 30 seconds; a cancellation exits |
| Coordinator.LoopAsWrittenIdles | custom_components/navirec/coordinator.py:115-181 | as written, the loop never changes the data or the cursor, every wait is the 30-second wait for the keyword error, every attempt before a cancellation waits once, and a cancellation first ends the loop with no wait |
| Coordinator.Loaded | custom_components/navirec/coordinator.py:238-249 | the cursor becomes a stored string `last_updated_at`, and stays unchanged when nothing or no such key is stored |
| Coordinator.NavirecCoordinator.constructor | custom_components/navirec/coordinator.py:31-65 | no client, no task, stop flag clear, an empty table and no cursor |
| Coordinator.NavirecCoordinator.GetVehicleState | custom_components/navirec/coordinator.py:234-236 | the entry for the id, and None exactly for an unknown id |
| Coordinator.NavirecCoordinator.Connected | custom_components/navirec/coordinator.py:72-75 | false without a stream client, otherwise the client's own connection flag |
| Coordinator.NavirecCoordinator.UpdateStreamState | custom_components/navirec/coordinator.py:251-255 | the state becomes `SaveCursor` of the old one; nothing else changes |
| Coordinator.NavirecCoordinator.HandleEvent | custom_components/navirec/coordinator.py:183-218 | the state becomes what `Apply` gives, or is unchanged when it fails |
| Coordinator.NavirecCoordinator.LoadStreamState | custom_components/navirec/coordinator.py:238-249 | the cursor becomes `Loaded` of the stored data; nothing else changes |
| Coordinator.NavirecCoordinator.StartStreaming | custom_components/navirec/coordinator.py:77-90 | nothing happens when a task exists; otherwise the cursor is loaded, the stop flag cleared and a task recorded, and no other field changes |
| Coordinator.NavirecCoordinator.StopStreaming | custom_components/navirec/coordinator.py:92-107 | sets the stop flag, disconnects a held client, and leaves the client and task references cleared and the data unchanged |
| Coordinator.NavirecCoordinator.Consume | custom_components/navirec/coordinator.py:131-134 | handles the client's events in order; the result is `Session` over what the stream yields |
| Coordinator.NavirecCoordinator.RunAttempt | custom_components/navirec/coordinator.py:118-134 | connect, reset the delay and consume: the effect and failure are `AttemptSpec` |
| Coordinator.NavirecCoordinator.Settle | custom_components/navirec/coordinator.py:136-177 | a failure adds its `Waits` to the wait log and exits as `Exits` says |
| Coordinator.NavirecCoordinator.Iterate | custom_components/navirec/coordinator.py:116-181 | one iteration on a fresh client has the effect of `AttemptSpec` and its wait, and always ends by disconnecting the client |
| Coordinator.NavirecCoordinator.RunStreamLoop | custom_components/navirec/coordinator.py:109-181 | with the stop flag set nothing runs; otherwise the data, the waits and the disconnect count are those of `LoopSpec`, and the last client is left disconnected |
| Coordinator.NavirecCoordinator.IterateAsWritten | custom_components/navirec/coordinator.py:116-181 | as written, one iteration only adds the wait of `AttemptAsWritten` to the wait log; no client is set, connected or disconnected |
| Coordinator.NavirecCoordinator.RunStreamLoopAsWritten | custom_components/navirec/coordinator.py:109-181 | as written, the loop adds exactly the waits of `LoopAsWritten` and changes nothing else |
| Commands.ResultPayload | custom_components/navirec/commands.py:170-192 | the event payload has exactly the seven keys: the command id and the names as strings, and the state, message, response and errors each as its own value or null when absent |
| Commands.Nullable | custom_components/navirec/commands.py:173-178 | None becomes null and a string stays that string |
| Commands.Notify | custom_components/navirec/commands.py:195-221 | "acknowledged" gives "succeeded" and the response (or "-"), "expired" gives "timed out" and an empty message, anything else gives "failed" and the errors (or "-"); the id is `navirec_command_<id>` |
| Commands.SuffixesDiffer | custom_components/navirec/commands.py:206-214 | the three titles are pairwise different |
| Commands.Emit | custom_components/navirec/commands.py:144-163 | the event is fired as `navirec_command_result`, and the event and the notification of an emission carry the same command id and state |
| Commands.ExecuteAction | custom_components/navirec/commands.py:54-81 | a creation failure propagates; otherwise the created command is returned with exactly one poll task, named `navirec_command_<id>` |
| Commands.Backoff | custom_components/navirec/commands.py:166-167 | the next delay never exceeds the cap and, with a valid configuration, never shrinks |
| Commands.PollCommandStatus | custom_components/navirec/commands.py:84-167 | the poll loop over the clock readings and replies computes `PollSpec` from the initial delay, for any settings, an initial delay of 0 included |
| Commands.PollShape | custom_components/navirec/commands.py:104-167 | every GET follows exactly one sleep; the j-th sleep is the j-th capped geometric delay; at most one emission ends the run |
| Commands.DelayBounds | custom_components/navirec/commands.py:104-167 | with initial ≤ max and factor ≥ 1, every delay lies between initial and max and the delays never shrink |
| Commands.SleepsCapped | custom_components/navirec/commands.py:128 | with initial ≤ max and factor ≥ 1, every sleep of a poll lies between the initial delay and the cap |
| Commands.ExpiredFirst | custom_components/navirec/commands.py:108-126 | expired at the loop head: one "expired" emission with a "timed out" notification, and no sleep or GET |
| Commands.EmissionIsTerminal | custom_components/navirec/commands.py:106-167 | the poll ends at the first step whose head finds the expiry passed or whose reply is terminal, and at no step before it; it emits if and only if such a step exists, and then exactly one emission: "expired", or that first terminal reply's state, message, response and errors |
| Commands.FirstTerminalEnds | custom_components/navirec/commands.py:138-164 | when no expiry has passed and no reply was terminal before step k, a terminal reply at step k ends the poll after k + 1 GETs with exactly one emission carrying that reply's state, message, response and errors |
| Commands.PollsUntilTerminal | custom_components/navirec/commands.py:108-167 | without an expiry and a terminal reply, every step issues a GET and nothing is emitted |
| Data.VehicleIdFromState | custom_components/navirec/data.py:56-60 | None for a falsy vehicle; otherwise the id extracted from the vehicle URL |
| Data.VehicleIdFromSensor | custom_components/navirec/data.py:49-53 | None for a falsy vehicle; otherwise the id extracted from the vehicle URL |
| Data.VehicleIdOfUrl | custom_components/navirec/data.py:56-60 | a vehicle URL `<prefix><id>/` resolves to that id |
| Data.Coordinates | custom_components/navirec/data.py:63-82 | `(coords[1], coords[0])` when there are at least two coordinates, else `(None, None)` |
| Data.CoordinatesOfPoint | custom_components/navirec/data.py:77-81 | a GeoJSON point `[lon, lat, ...]` comes back as `(lat, lon)` |
| Data.SensorValue | custom_components/navirec/data.py:85-97 | the named reading, or None when it is absent |
| Data.Activity | custom_components/navirec/data.py:100-114 | the activity's string value, and None exactly when there is none |
| Data.ChoiceOptions | custom_components/navirec/data.py:117-132 | no choices give `[]`; otherwise one string per choice, in order, the `str` of its value |
| Data.ChoiceOptionParses | custom_components/navirec/data.py:132 | an integer choice's option text reads back as the choice's value |
| Services.FirstAction | custom_components/navirec/services.py:90-93 | None exactly when no action's `str(id)` is the action id; otherwise the first listed action whose `str(id)` is the action id |
| Services.FindVehicleAndAction | custom_components/navirec/services.py:69-95 | the first entry with runtime data, the vehicle and a matching action yields that entry, vehicle and action; no entry before it matches; None exactly when none matches |
| Services.SearchSkipsNonMatching | custom_components/navirec/services.py:77-93 | entries without runtime data, without the vehicle or without the action do not stop the search, and a later matching entry is found |
| Services.VehicleName | custom_components/navirec/services.py:43 | `name_display`, else `registration`, else the vehicle id |
| Services.ActionName | custom_components/navirec/services.py:44 | `name_display`, else `slug`, else `str(type)` |
| Services.HandleExecuteAction | custom_components/navirec/services.py:31-59 | the not-found error exactly when nothing matches; otherwise the call goes to the first matching entry, carries the ids unchanged and the display names of that entry's vehicle and action |
| ConfigFlow.NormalizeAccountId | custom_components/navirec/config_flow.py:28-30 | None exactly when the field is missing or all whitespace; otherwise the stripped id |
| ConfigFlow.FindAccount | custom_components/navirec/config_flow.py:214-220 | the first account whose id equals the given one, or none when no account matches |
| ConfigFlow.ValidateAndGetAccount | custom_components/navirec/config_flow.py:192-223 | errors propagate; no accounts is an authentication error; without an id the first account; with one, the first account with that id when every account before it is an object without it, a non-API error at a non-object met first, or an authentication error when none has it |
| ConfigFlow.ErrorCode | custom_components/navirec/config_flow.py:54-62 | authentication gives "auth", communication "connection", other API errors "unknown", and a non-API error none |
| ConfigFlow.StepUserFails | custom_components/navirec/config_flow.py:50-62 | a failure to choose the account shows the form with its error code, or propagates when it is not an API error |
| ConfigFlow.StepUserCreates | custom_components/navirec/config_flow.py:46-78 | a created entry is for the chosen account, under its id, titled by its name or else its id, with the URL's trailing "/" stripped and the given token |
| ConfigFlow.StepUserAborts | custom_components/navirec/config_flow.py:68-69 | the step aborts exactly when the chosen account's id is already configured |
| Setup.AccountName | custom_components/navirec/__init__.py:55-60 | the configured id exactly as the result when every account is an object without that id; a non-empty name unless the id is empty; a failure only at a non-object account met before any match |
| Setup.NameOr | custom_components/navirec/__init__.py:59 | a non-empty string name, else the account id |
| Setup.AccountNameFirstMatch | custom_components/navirec/__init__.py:57-60 | the first matching account's name, or its id when the name is empty, whatever follows it |
| Setup.Index | custom_components/navirec/__init__.py:78-82 | every record in the map sits under its own key |
| Setup.IndexLastWins | custom_components/navirec/__init__.py:78-99 | a key is present exactly when some record has it, and it holds the last such record |
| Setup.Group | custom_components/navirec/__init__.py:85-93 | no group is empty |
| Setup.Having | custom_components/navirec/__init__.py:92-93 | every record listed has the key |
| Setup.GroupIsFilter | custom_components/navirec/__init__.py:84-106 | a group exists exactly when some record has its key, and lists those records in input order |
| Setup.KnownVehicle | custom_components/navirec/__init__.py:92 | a grouping key is always a known vehicle id |
| Setup.GroupKeysKnown | custom_components/navirec/__init__.py:84-106 | grouped by known vehicles, the group keys are a subset of the vehicle keys |
| Setup.GroupTotal | custom_components/navirec/__init__.py:109 | the group lengths sum to the number of grouped records |
| Setup.FindAccountName | custom_components/navirec/__init__.py:55-60 | the account-name loop computes `AccountName` |
| Setup.IndexVehicles | custom_components/navirec/__init__.py:78-82 | the vehicle loop builds the index by `str(id)`, skipping falsy ids |
| Setup.IndexSensors | custom_components/navirec/__init__.py:84-93 | the sensor loop builds the sensor index and the per-vehicle groups |
| Setup.IndexInterpretations | custom_components/navirec/__init__.py:95-99 | the interpretation loop builds the index by `key`, skipping falsy keys |
| Setup.GroupActions | custom_components/navirec/__init__.py:101-106 | the action loop builds the per-vehicle groups of known vehicles |
| Setup.TotalActions | custom_components/navirec/__init__.py:109 | the total is the sum of the group lengths |
| Setup.IndexCatalog | custom_components/navirec/__init__.py:55-141 | the indexing part of setup computes the catalog `CatalogSpec` describes |
| Setup.CatalogShape | custom_components/navirec/__init__.py:78-109 | grouped sensors and actions name only known vehicles, each group keeps input order, every sensor with an id is indexed, and the total counts the grouped actions |
| Setup.UnloadEntry | custom_components/navirec/__init__.py:166-184 | streaming stops only for an entry with runtime data; the platforms' result is returned; services go exactly when that succeeded and one entry remains |
| GenerateModels.OwnRef | scripts/generate_models.py:95-99 | an object contributes a name exactly when its `$ref` starts with `#/components/schemas/`; at most one name, and it has no "/" |
| GenerateModels.Refs | scripts/generate_models.py:89-107 | no collected name contains "/" |
| GenerateModels.RefsOfObject | scripts/generate_models.py:100-101 | an object's references include those of each value it holds |
| GenerateModels.RefNamesLastSegment | scripts/generate_models.py:96-99 | a schema reference contributes its last path segment |
| GenerateModels.Search | scripts/generate_models.py:93-104 | the recursive walk adds exactly the references of the value to the set |
| GenerateModels.SearchFields | scripts/generate_models.py:100-101 | the walk over an object's values adds the references under all its keys |
| GenerateModels.SearchItems | scripts/generate_models.py:102-104 | the walk over a list adds the references of all its items |
| GenerateModels.FindSchemaDependencies | scripts/generate_models.py:89-107 | the dependencies are exactly the schema's references |
| GenerateModels.Enqueue | scripts/generate_models.py:73-76 | every unprocessed dependency becomes required and is queued |
| GenerateModels.Close | scripts/generate_models.py:58-76 | the worklist ends with every root required, the set closed under the references of the schemas it holds, inside every closed set that holds the roots (only what the roots reach), and each present schema expanded exactly once |
| GenerateModels.FilteredSpec | scripts/generate_models.py:81-86 | exactly the four keys: `openapi` defaulting to "3.0.3", `info` defaulting to {}, `paths` {}, and the kept schemas |
| GenerateModels.ExtractRequiredSchemas | scripts/generate_models.py:52-86 | the kept schemas are input schemas with identical values; every present root is kept; every present dependency of a kept schema is kept; nothing is kept that the roots do not reach |
| GenerateModels.ExtractModelSchemas | scripts/generate_models.py:27-86 | with the script's `REQUIRED_SCHEMAS` as roots: every required schema the input has is kept with its value, every present dependency of a kept schema is kept, and nothing else |
| DownloadFixtures.MatchLinkSound | scripts/download_fixtures.py:77 | every match is a part of the form `<url>; rel="rel"...` with the regex's groups |
| DownloadFixtures.MatchLinkComplete | scripts/download_fixtures.py:77 | every part of that form matches, giving its own URL and rel |
| DownloadFixtures.ParseLinkHeader | scripts/download_fixtures.py:73-80 | the loop over the comma-separated parts computes `Links`, binding each matching stripped part's rel to its URL |
| DownloadFixtures.BoundLastWins | scripts/download_fixtures.py:76-79 | a rel is bound exactly when some part binds it, to the URL of the last such part; parts that do not match are ignored |
| DownloadFixtures.FetchWith | scripts/download_fixtures.py:93-118 | at most one request per response |
| DownloadFixtures.HandleResponse | scripts/download_fixtures.py:94-118 | the loop body for one response computes `Respond` |
| DownloadFixtures.FetchJson | scripts/download_fixtures.py:83-120 | the fetch loop over the responses computes `FetchSpec` |
| DownloadFixtures.FetchFollowsLinks | scripts/download_fixtures.py:93-118 | the first request is for the given URL, and each later one is the same URL after a 429 and the next link otherwise |
| DownloadFixtures.FetchGathers | scripts/download_fixtures.py:104-111 | a fetch not cut short by an error holds the gathered results of the responses read: a list's items, or a non-list body as one item |
| DownloadFixtures.SinglePage | scripts/download_fixtures.py:113-114 | without pagination at most one page is read, and a completed fetch read exactly one |
| DownloadFixtures.AuthFailureIsLast | scripts/download_fixtures.py:95-96 | the fetch fails with the authentication error exactly when the last response read is a 401 |
| Text.Strip | custom_components/navirec/api.py:288 | the result is empty exactly for all-whitespace text, and otherwise has no whitespace at either end |
| Text.StripSlice | custom_components/navirec/config_flow.py:30 | the stripped text is the slice of the input between a whitespace prefix and a whitespace suffix |
| Text.RStripChar | custom_components/navirec/api.py:69 | `rstrip("/")` is a prefix of the input, does not end in "/", and only "/" was removed |
| Text.Split | custom_components/navirec/api.py:141 | at least one part, and no part contains the separator |
| Text.JoinSplit | custom_components/navirec/api.py:141 | joining the parts of a split gives the text back |
| Text.SplitJoin | custom_components/navirec/api.py:106 | splitting the join of separator-free parts gives the parts back |
| Text.LastSegment | scripts/generate_models.py:99 | the text after the last separator: a separator-free suffix preceded by the separator unless it is the whole text |
| Text.ParseIntDecimal | custom_components/navirec/api.py:185 | `int(str(i)) == i` for every integer |

## Left out

- The network, aiohttp sessions, sockets, timeouts (`sock_read=90`, the 30-second request timeout), headers and logging. Replies are inputs.
- asyncio itself: task creation, cancellation, awaiting, and concurrency between the poll tasks and the stream loop. A cancellation is modelled as an attempt that raises `CancelledError` while connecting.
- UTF-8 decoding, JSON decoding and pydantic validation. The two decoders and the `VehicleState` validator are function parameters, and `Stream.Reader(decode, parse)` is the line reader the iterator uses. `models.py` is not part of this model.
- The Home Assistant store, event bus, persistent notifications, device registry and platform forwarding. They are recorded effects: the save log, the published tables, the emissions and the spawned tasks.
- The reconfigure step of the config flow and the form schemas. The reconfigure step repeats the user step's choice of account.
- `get_vehicle_id_from_action`, `async_get_interpretations`, `async_get_actions` and the device-command requests are used but not defined in the source files. Actions carry an already resolved vehicle id, and the fetched lists and command replies are inputs.
- The `actions_by_vehicle` field of `NavirecData` is not defined: the dataclass (custom_components/navirec/data.py:135-152) has no such field, yet setup passes `actions_by_vehicle=` to it (custom_components/navirec/__init__.py:140) and the service handler and the buttons read it. As written, that constructor call raises `TypeError`. `Data.NavirecData` carries the field, as its readers intend, and the as-written failure of setup is not modelled.
- `COMMAND_POLL_INITIAL_DELAY`, `COMMAND_POLL_MAX_DELAY`, `COMMAND_POLL_BACKOFF_FACTOR`, `COMMAND_TERMINAL_STATES` and `EVENT_COMMAND_RESULT` are imported by custom_components/navirec/commands.py:11-18 but not defined in custom_components/navirec/const.py, so the import fails as written. The first four are configuration parameters (`Commands.PollConfig`); the event type is `navirec_command_result`, the name the command tests expect.
- The script parts other than the schema filter, `parse_link_header` and `fetch_json`: `main`, `download_endpoint`, `download_stream_events`, `get_headers`, `save_json`, and the subprocess and file I/O of the generator.
- Coordinates are opaque JSON values that are only swapped; no floating point is modelled.
- Api.RetryAfter: reads `Retry-After` as Python's `int()` of ASCII decimal text with surrounding whitespace and an optional sign. Underscores and non-ASCII digits are not modelled.
- DownloadFixtures.RetryAfter: same reading of `Retry-After`; a header `int()` rejects raises in the script and ends the fetch in the model.
- Stream.TrackCursor: a non-string `updated_at` is treated as absent; the source would store any value.
- Coordinator.Apply: same as `TrackCursor`, a non-string `updated_at` does not move the cursor.
- Coordinator.Loaded: a non-string stored `last_updated_at` leaves the cursor unchanged.
- Setup.AccountName: a non-string account name is treated as missing.
- Setup.NameOr: a non-string account name is treated as missing, so the id is used in its place.
- GenerateModels.OwnRef: a non-string `$ref` contributes nothing, where the source would fail on it.
- GenerateModels.Schemas: a non-object `components` or `schemas` is treated as empty.
- Coordinator.LoopSpec: the loop is modelled with the stop flag clear between iterations, and runs over a finite sequence of attempts rather than forever.
- Coordinator.NavirecCoordinator.Settle: the loop always builds a fresh client before connecting, so a communication error always waits that client's first backoff of one second; `Policy` keeps the 5-second wait without a client, which the loop cannot reach.
- Coordinator.NavirecCoordinator.Iterate: models the intended call, where the client takes the cursor as an initial value. The as-written call is modelled separately (see "## Findings").
- Api.Extension: a dictionary body's keys come in ascending string order. Python yields them in the body's own order, which a map does not keep.
- DownloadFixtures.FetchJson: the responses are a finite sequence; running out of them ends the fetch as unfinished.
- DownloadFixtures.FetchFollowsLinks: the fetch lemmas are stated for any next-link function; `FetchSpec` instantiates it with `parse_link_header(...).get("next")`.
- Api.GetPaginated: the replies are a finite sequence; running out of them leaves the result undetermined (None).
- Commands.PollCommandStatus: the clock readings and replies are a finite sequence; running out of them leaves the poll unfinished.

## Findings

| source | as written | input that shows it | evidently intended | confidence | as-written member | corrected member |
|---|---|---|---|---|---|---|
| custom_components/navirec/coordinator.py:118-124 | the stream client is built with `initial_watermark=`, which its constructor (api.py:194-210) does not accept, so every iteration raises `TypeError`, waits 30 seconds and never connects | any run of connection attempts, e.g. one attempt whose reply is a 200 stream of events: the loop handles none of them | the client is built with the coordinator's cursor as its initial `_last_updated_at`, connects, and the loop waits only as the failure calls for | not executed; high | Coordinator.LoopAsWrittenIdles | Coordinator.LoopRunsEveryAttempt |
