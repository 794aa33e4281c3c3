# Rhasspy dialogue manager (Hermes) — Dafny model

This project models the session manager `DialogueHermesMqtt` of
`rhasspydialogue_hermes`. The manager coordinates one dialogue session at a time
over the Hermes message bus. It holds an optional current session and a
double-ended queue of pending sessions. Each inbound Hermes message is handled by
one handler. The handler changes that state and publishes an ordered list of
Hermes messages: `TtsSay`, `HotwordToggleOn/Off`, `AsrStartListening/StopListening`,
`NluQuery`, `DialogueSessionQueued/Started/Ended` and `DialogueIntentNotRecognized`.

Every handler is a pure function `(state, record) -> Step(state', messages)`:

- `hermes.dfy` (module `Hermes`): the inbound records, the outbound `Message` type,
  and the session-start `init` as a sum type: `Notification(notice)` or
  `Action(text?, intentFilter?, canBeEnqueued, sendIntentNotRecognized)`.
- `session.dfy` (module `Session`): `SessionInfo` and the manager `State`.
  In Python the same mutable `SessionInfo` object can be the current session and
  a queued one at once (`start_session` enqueues a session and then makes it
  current). For that reason, sessions live in an object store `objects`. The
  current slot and the queue hold references (indices) into it.
- `dialogue.dfy` (module `Dialogue`): `start_session` and `end_session`. These
  two are mutually recursive through the queue. The measure is the queue length:
  each `end_session` pops before it starts. The file also holds the handlers for
  start, continue, end, text captured, intent not recognized and wake word.
- `filters.dfy` (module `Filters`): `_check_siteId` and `_check_sessionId`.
- `dispatch.dfy` (module `Dispatch`): which filter gates which handler, and a run
  over a sequence of messages.
- `properties.dfy` (module `Properties`): lemmas that relate several calls.
  - A reachable-state invariant: only action sessions are queued, and a non-empty
    queue always waits behind a current session.
  - Every message keeps that invariant.
  - Each message publishes at most one `DialogueSessionEnded`, and it names
    exactly the session the message kind implies.
  - `end_session` pops the queue front and starts it.
  - How the filters and the handlers interact.

Fresh ids are parameters: the uuid of `handle_start` and the uuid suffix of
`handle_wake`. The model follows the code literally, including these quirks:

- The session passed to `start_session` always becomes current and is announced
  with `DialogueSessionStarted`. This holds even when it was only queued or
  dropped, and even after a notification session has already been ended. As a
  result, a queued session is ended by the next end request and then restarted
  from the queue (`EnqueuedSessionRestartsOnEnd`). Text captured meanwhile
  survives the restart (`CapturedTextSurvivesRestart`).
- A notification started while another session is active ends that other
  session, not itself.
- `handle_end` publishes `HotwordToggleOn` only when a queued session became current.
- Sessions started from the queue or by a wake word are announced at site `"default"`.

The command-line entry point `__main__.py` defines `--wakeword-id`,
`--session-timeout`, `--sound`, `--no-sound`, `--volume`, `--group-separator`,
`--min-asr-confidence`, `--say-chars-per-second` and `--hotword-send-not-recognized`.
It passes `site_ids` (from the shared `--site-id` option), `wakeword_ids`,
`session_timeout` and the others as keyword arguments, while the constructor in
`rhasspydialogue_hermes/__init__.py` takes only `client`, `siteIds`, `wakewordIds`
and `loop`. Session timeouts, feedback sounds, site
groups, an ASR confidence floor, speech-length estimates and not-recognized
reports for wake word sessions do not exist there, and the model follows that code.

## Model

| member | source | states |
|---|---|---|
| Dialogue.StartSession | rhasspydialogue_hermes/__init__.py:129-214 | The started session always ends up current and the last message announces it. An action session is appended to the queue exactly when another session is active and it can be enqueued. Its customData comes from its request, and its intentFilter and sendIntentNotRecognized from its action. A notification only shortens the queue. Session ids, sites and requests never change, and sessions outside the queue are untouched. |
| Dialogue.EndSession | rhasspydialogue_hermes/__init__.py:275-299 | Publishes the optional AsrStopListening and the DialogueSessionEnded of the current session first. With an empty queue it only clears the current session. Otherwise the queue strictly shrinks (the termination measure) and some session is current afterwards. |
| Dialogue.HandleStart | rhasspydialogue_hermes/__init__.py:110-214 | The fresh id names a new session that becomes current. An action on an idle manager publishes TtsSay (only if it has text), HotwordToggleOff, AsrStartListening and DialogueSessionStarted. While a session is active, the action is queued (with DialogueSessionQueued) or dropped according to canBeEnqueued, and is announced as started either way. The new session carries the request's customData and the action's intentFilter and sendIntentNotRecognized; a notification session keeps the class defaults. |
| Dialogue.HandleContinue | rhasspydialogue_hermes/__init__.py:216-255 | With no session nothing happens. customData is replaced only by non-empty data. The intentFilter is overwritten only when one already exists. sendIntentNotRecognized is always overwritten. TtsSay (only if text), HotwordToggleOff and AsrStartListening follow for the same session. |
| Dialogue.HandleEnd | rhasspydialogue_hermes/__init__.py:257-273 | With no session nothing is published. With an empty queue the output is exactly the closing messages, and it ends without HotwordToggleOn. With a queue the output ends in HotwordToggleOn for the new current session's site. |
| Dialogue.HandleTextCaptured | rhasspydialogue_hermes/__init__.py:301-327 | Records the captured text on the current session only. Publishes exactly AsrStopListening, HotwordToggleOn and NluQuery (text, the session's intentFilter, its id). With no session nothing happens. |
| Dialogue.HandleNotRecognized | rhasspydialogue_hermes/__init__.py:337-363 | DialogueIntentNotRecognized is published first exactly when the session asks for it. The session is then always ended with IntentNotRecognized. |
| Dialogue.HandleWake | rhasspydialogue_hermes/__init__.py:365-400 | The new session's id is the detection's id if it is non-empty, else siteId-wakewordId-suffix. Its customData is the wake word id and its action cannot be enqueued. It becomes current and the queue is left as it was. |
| Filters.CheckSiteId | rhasspydialogue_hermes/__init__.py:569-574 | Every payload passes when no site ids are configured. Otherwise the payload's siteId (default "default") must be configured. |
| Filters.CheckSessionId | rhasspydialogue_hermes/__init__.py:576-582 | Nothing passes without a current session. Otherwise exactly payloads whose sessionId (default "") equals the current id pass. |
| Dispatch.Receive | rhasspydialogue_hermes/__init__.py:423-514 | A message rejected by its filter, or a hotword of an unconfigured wake word id, changes nothing and publishes nothing. Session identities are kept. |
| Dispatch.Run | rhasspydialogue_hermes/__init__.py:423-538 | Successive calls of on_message, composed in arrival order (each handler's messages published as its generator yields them). Handling a sequence of messages one after another keeps every reference valid and never changes a session's id, site or request. |
| Properties.EndSessionPopsFront | rhasspydialogue_hermes/__init__.py:287-299 | In a reachable state, ending with a non-empty queue makes the queue front current and leaves exactly the rest queued. The output is the closing messages followed by the front's prompt and its DialogueSessionStarted at site "default". |
| Properties.EndSessionWhenLast | rhasspydialogue_hermes/__init__.py:281-296 | With nothing queued, end_session publishes exactly the closing messages and leaves no session current and the queue empty. |
| Properties.EndSessionResult | rhasspydialogue_hermes/__init__.py:281-299 | In a reachable state, end_session leaves the former queue front current (none if the queue was empty), the rest queued, and publishes the closing messages followed by the resumed front's prompt and start. |
| Properties.EndSessionEndsOnce | rhasspydialogue_hermes/__init__.py:287-291 | end_session publishes exactly one DialogueSessionEnded, for the current session. |
| Properties.NotificationWhenIdle | rhasspydialogue_hermes/__init__.py:144-166 | On an idle manager a notification is spoken, ended and then announced as started. It stays current. |
| Properties.NotificationWhileActive | rhasspydialogue_hermes/__init__.py:144-214 | A notification while a session is active is spoken under the active session's id and ends that session. It then resumes the queue front and takes the current slot. |
| Properties.WakeOutputs | rhasspydialogue_hermes/__init__.py:372-398 | A wake word on an idle manager publishes HotwordToggleOff, AsrStartListening and DialogueSessionStarted at "default". With an active session, that session's closing messages (reason AbortedByUser) come first. |
| Properties.EndResumesQueue | rhasspydialogue_hermes/__init__.py:257-299 | An end request with sessions queued resumes exactly the front one. It publishes HotwordToggleOn for that session's site last. |
| Properties.NotRecognizedOutputs | rhasspydialogue_hermes/__init__.py:343-361 | Gives the exact output: the optional notice, the closing messages with reason IntentNotRecognized, then the resumed queue front. It also gives the resulting current session and queue. |
| Properties.InitialInvariant | rhasspydialogue_hermes/__init__.py:96-97 | A new manager (no session, empty queue) satisfies the invariant. |
| Properties.QueueHoldsActionsCarries | rhasspydialogue_hermes/__init__.py:296-298 | A queue that only shrinks from the front over objects with unchanged requests still holds only action sessions. |
| Properties.HandleStartKeepsInvariant | rhasspydialogue_hermes/__init__.py:177-214 | Starting any session keeps the invariant. |
| Properties.HandleEndKeepsInvariant | rhasspydialogue_hermes/__init__.py:257-299 | Ending the session keeps the invariant. |
| Properties.HandleNotRecognizedKeepsInvariant | rhasspydialogue_hermes/__init__.py:337-363 | Handling an unrecognized intent keeps the invariant. |
| Properties.ReceiveKeepsInvariant | rhasspydialogue_hermes/__init__.py:423-512 | Every message, admitted or dropped, keeps the invariant. |
| Properties.RunKeepsInvariant | rhasspydialogue_hermes/__init__.py:423-538 | Any sequence of messages, handled by successive on_message calls in arrival order, keeps the invariant. |
| Properties.ActionStartEndsNothing | rhasspydialogue_hermes/__init__.py:167-214 | Starting an action session never announces a session end. |
| Properties.NotificationEndsCurrent | rhasspydialogue_hermes/__init__.py:149-166 | A notification while a session is active announces exactly the end of that session. |
| Properties.NotificationEndsItself | rhasspydialogue_hermes/__init__.py:149-166 | A notification on an idle manager announces exactly its own end. |
| Properties.HandleStartEnds | rhasspydialogue_hermes/__init__.py:144-214 | A start request announces no end for an action; a notification announces the end of the active session, or its own end on an idle manager. |
| Properties.HandleEndEnds | rhasspydialogue_hermes/__init__.py:257-299 | An end request announces exactly the end of the current session. |
| Properties.HandleNotRecognizedEnds | rhasspydialogue_hermes/__init__.py:356-361 | An unrecognized intent announces exactly the end of the current session. |
| Properties.HandleWakeEnds | rhasspydialogue_hermes/__init__.py:385-398 | A wake word announces the end of the active session, if there is one, and no other end. |
| Properties.ReceiveEndsAtMostOnce | rhasspydialogue_hermes/__init__.py:423-512 | Every message publishes at most one DialogueSessionEnded. It publishes one exactly when it is admitted and its kind ends a session, and it names that session. |
| Properties.StartedSessionAdmitted | rhasspydialogue_hermes/__init__.py:576-582 | After a start request, exactly the payloads carrying the fresh session id pass the session filter. This holds even when the session was only queued. |
| Properties.WakeSessionAdmitted | rhasspydialogue_hermes/__init__.py:372-374 | After a wake word, exactly the payloads carrying the wake session's id pass the session filter. |
| Properties.FinalEndDropsStaleResults | rhasspydialogue_hermes/__init__.py:470-501 | Once the last session has ended, late text-captured and not-recognized messages are dropped without effect. |
| Properties.ForeignSiteDropped | rhasspydialogue_hermes/__init__.py:427-458 | With site ids configured, start, continue, end and hotword messages from other sites change nothing. |
| Properties.LocalSiteHandled | rhasspydialogue_hermes/__init__.py:427-458 | When no site ids are configured or the payload's site is one of them, start, continue and end messages reach their handler unchanged, and so do hotwords of configured wake word ids. |
| Properties.StaleResultDropped | rhasspydialogue_hermes/__init__.py:470-501 | While a session is active, text-captured and not-recognized messages whose sessionId (default "") differs from the current id change nothing and publish nothing. |
| Properties.CurrentResultHandled | rhasspydialogue_hermes/__init__.py:470-501 | While a session is active, text-captured and not-recognized messages carrying its id reach their handler unchanged. |
| Properties.UnsubscribedWakewordIgnored | rhasspydialogue_hermes/__init__.py:502-512 | Hotwords of wake word ids that are not configured change nothing. |
| Properties.ActionSettingsReachNlu | rhasspydialogue_hermes/__init__.py:172-175 | An action started on an idle manager: the NLU query for its captured text carries the action's intentFilter, and a not-recognized result is reported first exactly when the action set sendIntentNotRecognized; otherwise the closing messages come first. |
| Properties.EnqueuedSessionRestartsOnEnd | rhasspydialogue_hermes/__init__.py:177-189 | A queued session is current at once. The next end request ends it, not the session it waited for, and restarts it from the queue at "default". Across the start and the end request, only the queued session's end is announced. |
| Properties.CapturedTextSurvivesRestart | rhasspydialogue_hermes/__init__.py:309-310 | Text captured by a queued-and-current session survives its restart. Ending it afterwards publishes only DialogueSessionEnded, with no AsrStopListening. |

## Left out

- MQTT plumbing is not modelled: `on_connect`, topic matching, JSON decoding through
  the message classes' `from_dict`, `publish`, `publish_all`, `async_publish_all`.
  Inbound messages arrive as decoded records plus the payload map the filters read.
  `Dispatch.Receive` models only which filter gates which handler.
- Dispatch.Receive: the filter and the handler run on the same state, and `Dispatch.Run`
  handles messages strictly in arrival order. In Python, `on_message` runs on the
  MQTT client thread. It checks the filter there, runs `handle_text_captured` inline,
  and schedules the other handlers on the event loop through `publish_all`, where they
  run later. A text-captured message can therefore overtake an end request that
  arrived before it: its AsrStopListening, HotwordToggleOn and NluQuery come first, and
  the end then publishes no AsrStopListening. `Run` instead ends the session first and
  drops the text. Neither the overtaking nor a filter reading a state that a
  scheduled handler later changes is modelled.
- Payload values that are not strings (a JSON `null` sessionId, for example) are
  not modelled. The payload is a map from strings to strings.
- `say_and_wait` is modelled only as the one `TtsSay` it publishes for the
  current session. The wait for `TtsSayFinished`, its 10-second timeout and the
  request id drawn from `uuid4` are asynchronous timing. `TtsSay` therefore has no id field.
- Handlers are treated as atomic. In Python, another message's handler can run
  while a handler waits inside `say_and_wait`. That interleaving is not modelled.
- The `TtsSayFinished` branch of `on_message` (it only wakes the waiter) and
  `handle_recognized` (it only logs) have no effect on the state and are not modelled.
- Converting a raw dict `init` into `DialogueNotification`/`DialogueAction` is not
  modelled. `init` is already typed.
- Logging and exception wrappers are modelled only as "no current session means
  no output and no change". This includes `handle_end`, whose assertion fails
  outside its `try`.
- `SessionInfo.continue_session` is never assigned by the code and is not modelled.
- The message classes' own defaults are not modelled. Examples are the siteId of
  `NluQuery` and of `DialogueSessionEnded`, which the code does not set.
- `rhasspydialogue_hermes/__main__.py` is not part of this model. It is argument
  parsing and MQTT wiring. It passes constructor arguments the class does not accept.
