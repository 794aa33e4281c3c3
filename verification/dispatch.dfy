/**
  Routing of inbound messages to the handlers, with the filters applied first.
  Each event carries the raw payload the filters read and the record the
  handler receives; fresh ids that the source draws from uuid4 are part of
  the event.
 */
module Dispatch {
  import opened Hermes
  import opened Session
  import opened Dialogue
  import opened Filters

  /** The constructor arguments that shape message handling. */
  datatype Config = Config(siteIds: seq<string>, wakewordIds: seq<string>)

  datatype Event =
    | StartEvent(payload: Payload, start: StartRequest, freshId: string)
    | ContinueEvent(payload: Payload, proceed: ContinueRequest)
    | EndEvent(payload: Payload)
    | TextCapturedEvent(payload: Payload, captured: TextCaptured)
    | NotRecognizedEvent(payload: Payload, notRecognized: NotRecognized)
    | HotwordEvent(payload: Payload, wakewordId: string, detected: HotwordDetected, freshSuffix: string)

  /**
    Whether on_message hands the event to its handler: session control and
    hotwords are filtered by site, ASR and NLU results by session, and only
    hotwords of configured wake word ids are subscribed to.
   */
  predicate Admitted(cfg: Config, st: State, ev: Event)
    requires Valid(st)
  {
    match ev
    case StartEvent(p, _, _) => CheckSiteId(cfg.siteIds, p)
    case ContinueEvent(p, _) => CheckSiteId(cfg.siteIds, p)
    case EndEvent(p) => CheckSiteId(cfg.siteIds, p)
    case TextCapturedEvent(p, _) => CheckSessionId(st, p)
    case NotRecognizedEvent(p, _) => CheckSessionId(st, p)
    case HotwordEvent(p, w, _, _) => w in cfg.wakewordIds && CheckSiteId(cfg.siteIds, p)
  }

  /** One inbound message: filtered, then handled. */
  function Receive(cfg: Config, st: State, ev: Event): (r: Step)
    requires Valid(st)
    ensures Valid(r.st)
    ensures KeepsIdentity(st.objects, r.st.objects)
    ensures !Admitted(cfg, st, ev) ==> r == Step(st, [])
  {
    if !Admitted(cfg, st, ev) then Step(st, [])
    else
      match ev
      case StartEvent(_, start, freshId) => HandleStart(st, start, freshId)
      case ContinueEvent(_, proceed) => HandleContinue(st, proceed)
      case EndEvent(_) => HandleEnd(st)
      case TextCapturedEvent(_, captured) => HandleTextCaptured(st, captured)
      case NotRecognizedEvent(_, notRecognized) => HandleNotRecognized(st, notRecognized)
      case HotwordEvent(_, w, detected, suffix) => HandleWake(st, w, detected, suffix)
  }

  /** A sequence of inbound messages handled one after another; outputs concatenate. */
  function Run(cfg: Config, st: State, events: seq<Event>): (r: Step)
    requires Valid(st)
    ensures Valid(r.st)
    ensures KeepsIdentity(st.objects, r.st.objects)
    decreases |events|
  {
    if events == [] then Step(st, [])
    else
      var first := Receive(cfg, st, events[0]);
      var rest := Run(cfg, first.st, events[1..]);
      Step(rest.st, first.out + rest.out)
  }
}
