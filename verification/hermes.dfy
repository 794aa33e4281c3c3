/**
  Hermes message records as the dialogue manager sees them: the inbound
  requests it reacts to (already decoded from their JSON payloads) and the
  outbound messages it publishes.
 */
module Hermes {

  datatype Option<+T> = None | Some(value: T)

  /** Python truthiness of an optional string: present and not empty. */
  predicate Truthy(s: Option<string>) {
    s.Some? && s.value != ""
  }

  /** The termination reasons this manager ends sessions with. */
  datatype Reason = Nominal | AbortedByUser | IntentNotRecognized

  /** The `init` of a start request: a notification to speak, or an action that listens. */
  datatype Init =
    | Notification(notice: string)
    | Action(text: Option<string>, intentFilter: Option<seq<string>>,
             canBeEnqueued: bool, sendIntentNotRecognized: bool)

  /** hermes/dialogueManager/startSession */
  datatype StartRequest = StartRequest(siteId: string, init: Init, customData: Option<string>)

  /** hermes/dialogueManager/continueSession (its sessionId is not consulted) */
  datatype ContinueRequest = ContinueRequest(
    text: Option<string>,
    intentFilter: Option<seq<string>>,
    customData: Option<string>,
    sendIntentNotRecognized: bool)

  /** hermes/asr/textCaptured */
  datatype TextCaptured = TextCaptured(text: string, siteId: string)

  /** hermes/nlu/intentNotRecognized */
  datatype NotRecognized = NotRecognized(siteId: string, input: string)

  /** hermes/hotword/<wakewordId>/detected */
  datatype HotwordDetected = HotwordDetected(siteId: string, sessionId: Option<string>)

  /** Everything the manager publishes. */
  datatype Message =
    | TtsSay(siteId: string, sessionId: string, text: string)
    | HotwordToggleOn(siteId: string)
    | HotwordToggleOff(siteId: string)
    | AsrStartListening(siteId: string, sessionId: string)
    | AsrStopListening(siteId: string, sessionId: string)
    | NluQuery(input: string, intentFilter: Option<seq<string>>, sessionId: string)
    | DialogueSessionQueued(sessionId: string, siteId: string, customData: Option<string>)
    | DialogueSessionStarted(siteId: string, sessionId: string, customData: Option<string>)
    | DialogueSessionEnded(sessionId: string, customData: Option<string>, reason: Reason)
    | DialogueIntentNotRecognized(sessionId: string, customData: Option<string>,
                                  siteId: string, input: string)

  /** The ids of the sessions announced as ended, in publication order. */
  function EndedIds(out: seq<Message>): (ids: seq<string>)
    ensures |ids| <= |out|
  {
    if out == [] then []
    else
      var rest := EndedIds(out[1..]);
      if out[0].DialogueSessionEnded? then [out[0].sessionId] + rest else rest
  }

  /** The string fields of a JSON payload, as read by the inbound filters. */
  type Payload = map<string, string>

  /** `payload.get(key, default)` */
  function Get(payload: Payload, key: string, default: string): string {
    if key in payload then payload[key] else default
  }
}
