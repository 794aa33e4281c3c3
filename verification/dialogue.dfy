/**
  The handlers of the dialogue session manager. Each handler takes the state
  and one inbound record and returns the new state with the messages the
  Python generator yields, in order.
 */
module Dialogue {
  import opened Hermes
  import opened Session

  /** say_and_wait, reduced to the one TtsSay it publishes (only for non-empty text). */
  function SayIf(siteId: string, sessionId: string, text: Option<string>): seq<Message> {
    if Truthy(text) then [TtsSay(siteId, sessionId, text.value)] else []
  }

  /** Optional speech, then hotword off and ASR on: how a session starts listening. */
  function Prompt(siteId: string, sessionId: string, text: Option<string>): seq<Message> {
    SayIf(siteId, sessionId, text) + [HotwordToggleOff(siteId), AsrStartListening(siteId, sessionId)]
  }

  /** end_session stops ASR only for an action session that has not captured text yet. */
  function StopListening(s: SessionInfo, siteId: string): seq<Message> {
    if s.request.init.Action? && s.textCaptured.None? then [AsrStopListening(siteId, s.sessionId)] else []
  }

  /** What end_session publishes before it looks at the queue. */
  function Closing(s: SessionInfo, reason: Reason, siteId: string): seq<Message> {
    StopListening(s, siteId) + [DialogueSessionEnded(s.sessionId, s.customData, reason)]
  }

  /** Objects outside `except` and the queue are untouched. */
  ghost predicate Untouched(st: State, st': State, except: set<Ref>) {
    forall i :: 0 <= i < |st.objects| && i !in except && i !in st.queue ==>
      i < |st'.objects| && st'.objects[i] == st.objects[i]
  }

  /** start_session: start, queue or drop the session `ref`; it always ends up current. */
  function StartSession(st: State, ref: Ref, siteId: string): (r: Step)
    requires Valid(st) && ref < |st.objects|
    ensures Valid(r.st)
    ensures |r.st.objects| == |st.objects| && KeepsIdentity(st.objects, r.st.objects)
    ensures Untouched(st, r.st, {ref})
    ensures r.st.session == Some(ref)
    ensures |r.out| > 0
    ensures r.out[|r.out| - 1] ==
              DialogueSessionStarted(siteId, st.objects[ref].sessionId, r.st.objects[ref].customData)
    ensures st.objects[ref].request.init.Action? ==>
              r.st.queue == if st.session.Some? && st.objects[ref].request.init.canBeEnqueued
                            then st.queue + [ref] else st.queue
    ensures st.objects[ref].request.init.Notification? ==> IsSuffix(r.st.queue, st.queue)
    // An action session takes its customData from the request and its NLU settings from the action.
    ensures st.objects[ref].request.init.Action? ==>
              var s, s' := st.objects[ref], r.st.objects[ref];
              && s'.customData == s.request.customData
              && s'.intentFilter == s.request.init.intentFilter
              && s'.sendIntentNotRecognized == s.request.init.sendIntentNotRecognized
              && s'.textCaptured == s.textCaptured
    decreases |st.queue|, 1
  {
    var s := st.objects[ref];
    match s.request.init
    case Notification(notice) =>
      // Only an idle manager makes the notification current before ending "the" session.
      var st1 := if st.session.None? then st.(session := Some(ref)) else st;
      var say := SayIf(siteId, Current(st1).sessionId, Some(notice));
      var ended := EndSession(st1, Nominal, siteId);
      var st2 := ended.st.(session := Some(ref));
      Step(st2, say + ended.out + [DialogueSessionStarted(siteId, s.sessionId, st2.objects[ref].customData)])
    case Action(text, intentFilter, canBeEnqueued, sendIntentNotRecognized) =>
      var s1 := s.(customData := s.request.customData, intentFilter := intentFilter,
                   sendIntentNotRecognized := sendIntentNotRecognized);
      var started := DialogueSessionStarted(siteId, s1.sessionId, s1.customData);
      var st1 := st.(objects := st.objects[ref := s1], session := Some(ref));
      if st.session.None? then
        Step(st1, Prompt(siteId, s1.sessionId, text) + [started])
      else if canBeEnqueued then
        Step(st1.(queue := st.queue + [ref]),
             [DialogueSessionQueued(s1.sessionId, siteId, s1.customData), started])
      else
        Step(st1, [started])
  }

  /** end_session: announce the end of the current session, then start the queue's front. */
  function EndSession(st: State, reason: Reason, siteId: string): (r: Step)
    requires Valid(st) && st.session.Some?
    ensures Valid(r.st)
    ensures |r.st.objects| == |st.objects| && KeepsIdentity(st.objects, r.st.objects)
    ensures Untouched(st, r.st, {})
    ensures Closing(Current(st), reason, siteId) <= r.out
    ensures IsSuffix(r.st.queue, st.queue)
    ensures st.queue == [] ==>
              r == Step(st.(session := None), Closing(Current(st), reason, siteId))
    ensures st.queue != [] ==> r.st.session.Some? && |r.st.queue| < |st.queue|
    decreases |st.queue|, 0
  {
    var closing := Closing(Current(st), reason, siteId);
    if st.queue == [] then
      Step(st.(session := None), closing)
    else
      var started := StartSession(st.(session := None, queue := st.queue[1..]), st.queue[0], "default");
      assert IsSuffix(started.st.queue, st.queue[1..]);
      Step(started.st, closing + started.out)
  }

  /** end_session right after `ref` was pushed to the queue's front starts `ref` at site "default". */
  lemma PushedFrontRestarts(st: State, ref: Ref, reason: Reason, siteId: string)
    requires Valid(st) && st.session.Some? && ref < |st.objects|
    ensures var started := StartSession(st.(session := None), ref, "default");
            EndSession(st.(queue := [ref] + st.queue), reason, siteId)
              == Step(started.st, Closing(Current(st), reason, siteId) + started.out)
  {
    var pushed := st.(queue := [ref] + st.queue);
    assert pushed.queue[1..] == st.queue;
    assert pushed.(session := None, queue := pushed.queue[1..]) == st.(session := None);
  }

  /** handle_start: allocate a session for the request under the fresh id and start it. */
  function HandleStart(st: State, request: StartRequest, sessionId: string): (r: Step)
    requires Valid(st)
    ensures Valid(r.st)
    ensures |r.st.objects| == |st.objects| + 1 && KeepsIdentity(st.objects, r.st.objects)
    ensures r.st.session == Some(|st.objects|)
    ensures var s := r.st.objects[|st.objects|];
              s.sessionId == sessionId && s.siteId == request.siteId && s.request == request
    // The new session's fields: an action's settings are copied over, a notification keeps the defaults.
    ensures request.init.Action? ==>
              r.st.objects[|st.objects|] ==
                SessionInfo(sessionId, request.siteId, request, request.customData,
                            request.init.intentFilter, request.init.sendIntentNotRecognized, None)
    ensures request.init.Notification? ==>
              r.st.objects[|st.objects|] == NewSession(sessionId, request.siteId, request)
    // Action session: started when idle, else queued (canBeEnqueued) or dropped; current either way.
    ensures request.init.Action? ==>
              var data := request.customData;
              var started := DialogueSessionStarted(request.siteId, sessionId, data);
              && (st.session.None? ==>
                    r.st.queue == st.queue
                    && r.out == Prompt(request.siteId, sessionId, request.init.text) + [started])
              && (st.session.Some? && request.init.canBeEnqueued ==>
                    r.st.queue == st.queue + [|st.objects|]
                    && r.out == [DialogueSessionQueued(sessionId, request.siteId, data), started])
              && (st.session.Some? && !request.init.canBeEnqueued ==>
                    r.st.queue == st.queue && r.out == [started])
    ensures |r.out| > 0
    ensures request.init.Notification? ==>
              r.out[|r.out| - 1] == DialogueSessionStarted(request.siteId, sessionId, Some(""))
  {
    var ref := |st.objects|;
    var st1 := st.(objects := st.objects + [NewSession(sessionId, request.siteId, request)]);
    StartSession(st1, ref, request.siteId)
  }

  /** handle_continue: update the current session's fields and listen again. */
  function HandleContinue(st: State, request: ContinueRequest): (r: Step)
    requires Valid(st)
    ensures Valid(r.st)
    ensures st.session.None? ==> r == Step(st, [])
    ensures st.session.Some? ==>
              var ref := st.session.value;
              var before := st.objects[ref];
              && r.st.session == st.session && r.st.queue == st.queue
              && |r.st.objects| == |st.objects|
              && var after := r.st.objects[ref];
              && (forall i :: 0 <= i < |st.objects| && i != ref ==> r.st.objects[i] == st.objects[i])
              && after.sessionId == before.sessionId && after.siteId == before.siteId
              && after.request == before.request && after.textCaptured == before.textCaptured
              && (Truthy(request.customData) ==> after.customData == request.customData)
              && (!Truthy(request.customData) ==> after.customData == before.customData)
              && (before.intentFilter.Some? ==> after.intentFilter == request.intentFilter)
              && (before.intentFilter.None? ==> after.intentFilter.None?)
              && after.sendIntentNotRecognized == request.sendIntentNotRecognized
              && r.out == Prompt(before.siteId, before.sessionId, request.text)
  {
    if st.session.None? then Step(st, [])
    else
      var s := Current(st);
      var s1 := s.(
        customData := if Truthy(request.customData) then request.customData else s.customData,
        intentFilter := if s.intentFilter.Some? then request.intentFilter else s.intentFilter,
        sendIntentNotRecognized := request.sendIntentNotRecognized);
      Step(st.(objects := st.objects[st.session.value := s1]), Prompt(s.siteId, s.sessionId, request.text))
  }

  /**
    handle_end: end the current session nominally. Its `finally` reads the
    current session after end_session cleared it, so HotwordToggleOn is only
    published when a queued session has become current.
   */
  function HandleEnd(st: State): (r: Step)
    requires Valid(st)
    ensures Valid(r.st)
    ensures KeepsIdentity(st.objects, r.st.objects)
    ensures st.session.None? ==> r == Step(st, [])
    ensures st.session.Some? ==> Closing(Current(st), Nominal, Current(st).siteId) <= r.out
    ensures st.session.Some? && st.queue == [] ==>
              r.st == st.(session := None) && r.out == Closing(Current(st), Nominal, Current(st).siteId)
    ensures st.session.Some? && st.queue != [] ==>
              r.st.session.Some? && r.out[|r.out| - 1] == HotwordToggleOn(Current(r.st).siteId)
  {
    if st.session.None? then Step(st, [])
    else
      var ended := EndSession(st, Nominal, Current(st).siteId);
      if ended.st.session.None? then ended
      else Step(ended.st, ended.out + [HotwordToggleOn(Current(ended.st).siteId)])
  }

  /** handle_text_captured: record the transcript, stop ASR, re-enable the hotword, query NLU. */
  function HandleTextCaptured(st: State, captured: TextCaptured): (r: Step)
    requires Valid(st)
    ensures Valid(r.st)
    ensures st.session.None? ==> r == Step(st, [])
    ensures st.session.Some? ==>
              var ref := st.session.value;
              var s := st.objects[ref];
              && r.st == st.(objects := st.objects[ref := s.(textCaptured := Some(captured))])
              && r.out == [AsrStopListening(captured.siteId, s.sessionId),
                           HotwordToggleOn(captured.siteId),
                           NluQuery(captured.text, s.intentFilter, s.sessionId)]
  {
    if st.session.None? then Step(st, [])
    else
      var s := Current(st);
      var st1 := st.(objects := st.objects[st.session.value := s.(textCaptured := Some(captured))]);
      Step(st1, [AsrStopListening(captured.siteId, s.sessionId),
                 HotwordToggleOn(captured.siteId),
                 NluQuery(captured.text, s.intentFilter, s.sessionId)])
  }

  /** handle_not_recognized: optionally tell the client, then end the session. */
  function HandleNotRecognized(st: State, notRecognized: NotRecognized): (r: Step)
    requires Valid(st)
    ensures Valid(r.st)
    ensures KeepsIdentity(st.objects, r.st.objects)
    ensures st.session.None? ==> r == Step(st, [])
    ensures st.session.Some? ==>
              var s := Current(st);
              var notice := DialogueIntentNotRecognized(s.sessionId, s.customData,
                                                        notRecognized.siteId, notRecognized.input);
              var closing := Closing(s, IntentNotRecognized, notRecognized.siteId);
              && (s.sendIntentNotRecognized ==> [notice] + closing <= r.out)
              && (!s.sendIntentNotRecognized ==> closing <= r.out)
              && (st.queue == [] ==> r.st.session.None?)
              && (st.queue != [] ==> r.st.session.Some?)
  {
    if st.session.None? then Step(st, [])
    else
      var s := Current(st);
      var notice := if s.sendIntentNotRecognized
                    then [DialogueIntentNotRecognized(s.sessionId, s.customData,
                                                      notRecognized.siteId, notRecognized.input)]
                    else [];
      var ended := EndSession(st, IntentNotRecognized, notRecognized.siteId);
      Step(ended.st, notice + ended.out)
  }

  /** The id of a wake-word session: the detection's own id if it has one, else a composed one. */
  function WakeSessionId(wakewordId: string, detected: HotwordDetected, suffix: string): string {
    if Truthy(detected.sessionId) then detected.sessionId.value
    else detected.siteId + "-" + wakewordId + "-" + suffix
  }

  /**
    handle_wake: a wake word starts a session that cannot be queued. An active
    session is aborted after the new one is pushed to the queue's front, so the
    end of the old session starts the new one.
   */
  function HandleWake(st: State, wakewordId: string, detected: HotwordDetected, suffix: string): (r: Step)
    requires Valid(st)
    ensures Valid(r.st)
    ensures |r.st.objects| == |st.objects| + 1 && KeepsIdentity(st.objects, r.st.objects)
    ensures r.st.session == Some(|st.objects|) && r.st.queue == st.queue
    ensures var s := r.st.objects[|st.objects|];
              && (Truthy(detected.sessionId) ==> s.sessionId == detected.sessionId.value)
              && (!Truthy(detected.sessionId) ==>
                    s.sessionId == detected.siteId + "-" + wakewordId + "-" + suffix)
              && s.siteId == detected.siteId
              && s.customData == Some(wakewordId)
              && s.request == StartRequest(detected.siteId, Action(None, None, false, false), Some(wakewordId))
  {
    var ref := |st.objects|;
    var request := StartRequest(detected.siteId, Action(None, None, false, false), Some(wakewordId));
    var s := NewSession(WakeSessionId(wakewordId, detected, suffix), detected.siteId, request);
    var st1 := st.(objects := st.objects + [s]);
    if st.session.Some? then
      var r := EndSession(st1.(queue := [ref] + st.queue), AbortedByUser, detected.siteId);
      assert r.st == StartSession(st1.(session := None), ref, "default").st by {
        PushedFrontRestarts(st1, ref, AbortedByUser, detected.siteId);
      }
      r
    else
      StartSession(st1, ref, "default")
  }
}
