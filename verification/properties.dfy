/**
  Properties of the dialogue manager that relate several calls: the invariant
  every handler keeps, what end_session does in reachable states, and how the
  filters interact with the handlers.
 */
module Properties {
  import opened Hermes
  import opened Session
  import opened Dialogue
  import opened Filters
  import opened Dispatch

  /** Only action sessions are ever queued (start_session and handle_wake enqueue nothing else). */
  ghost predicate QueueHoldsActions(st: State)
    requires Valid(st)
  {
    forall i :: 0 <= i < |st.queue| ==> st.objects[st.queue[i]].request.init.Action?
  }

  /** The states a manager can reach: a non-empty queue always waits behind a current session. */
  ghost predicate Invariant(st: State) {
    && Valid(st)
    && QueueHoldsActions(st)
    && (st.queue != [] ==> st.session.Some?)
  }

  lemma {:induction false} EndedIdsAppend(a: seq<Message>, b: seq<Message>)
    ensures EndedIds(a + b) == EndedIds(a) + EndedIds(b)
    decreases |a|
  {
    if a == [] {
      assert a + b == b;
    } else {
      assert (a + b)[1..] == a[1..] + b;
      EndedIdsAppend(a[1..], b);
    }
  }

  lemma {:induction false} NoEndsNoIds(out: seq<Message>)
    requires forall i :: 0 <= i < |out| ==> !out[i].DialogueSessionEnded?
    ensures EndedIds(out) == []
    decreases |out|
  {
    if out != [] {
      NoEndsNoIds(out[1..]);
    }
  }

  /** Prompts and stops announce no session end. */
  lemma PromptEndsNothing(siteId: string, sessionId: string, text: Option<string>, s: SessionInfo)
    ensures EndedIds(Prompt(siteId, sessionId, text)) == []
    ensures EndedIds(StopListening(s, siteId)) == []
  {
    EndedIdsAppend(SayIf(siteId, sessionId, text), [HotwordToggleOff(siteId), AsrStartListening(siteId, sessionId)]);
  }

  lemma ClosingEndsOnce(s: SessionInfo, reason: Reason, siteId: string)
    ensures EndedIds(Closing(s, reason, siteId)) == [s.sessionId]
  {
    EndedIdsAppend(StopListening(s, siteId), [DialogueSessionEnded(s.sessionId, s.customData, reason)]);
    PromptEndsNothing(siteId, s.sessionId, None, s);
  }

  /** What starting the queue's front publishes once end_session has popped it. */
  function Resume(st: State): seq<Message>
    requires Valid(st) && QueueHoldsActions(st)
  {
    if st.queue == [] then []
    else
      var q := st.objects[st.queue[0]];
      Prompt("default", q.sessionId, q.request.init.text)
      + [DialogueSessionStarted("default", q.sessionId, q.request.customData)]
  }

  /**
    In a reachable state end_session ends the current session and, when
    sessions are queued, starts exactly the front one (at site "default").
   */
  lemma EndSessionPopsFront(st: State, reason: Reason, siteId: string)
    requires Valid(st) && st.session.Some? && QueueHoldsActions(st)
    ensures var r := EndSession(st, reason, siteId);
            var closing := Closing(Current(st), reason, siteId);
            && (st.queue != [] ==>
                  var q := st.objects[st.queue[0]];
                  && r.st.session == Some(st.queue[0])
                  && r.st.queue == st.queue[1..]
                  && r.out == closing + Resume(st))
  {
    if st.queue != [] {
      var q := st.objects[st.queue[0]];
      assert q.request.init.Action?;
      var st1 := st.(session := None, queue := st.queue[1..]);
      var started := StartSession(st1, st.queue[0], "default");
      var q1 := q.(customData := q.request.customData, intentFilter := q.request.init.intentFilter,
                   sendIntentNotRecognized := q.request.init.sendIntentNotRecognized);
      assert started == Step(st1.(objects := st1.objects[st.queue[0] := q1], session := Some(st.queue[0])),
                             Prompt("default", q.sessionId, q.request.init.text)
                             + [DialogueSessionStarted("default", q.sessionId, q.request.customData)]);
      assert EndSession(st, reason, siteId) == Step(started.st, Closing(Current(st), reason, siteId) + started.out);
    }
  }

  /** end_session with nothing queued only clears the current session. */
  lemma EndSessionWhenLast(st: State, reason: Reason, siteId: string)
    requires Valid(st) && st.session.Some? && st.queue == []
    ensures var r := EndSession(st, reason, siteId);
            && r.st.session.None? && r.st.queue == []
            && r.out == Closing(Current(st), reason, siteId)
  {
  }

  /** In a reachable state, end_session leaves the queue front current (or none) and resumes it. */
  lemma EndSessionResult(st: State, reason: Reason, siteId: string)
    requires Valid(st) && st.session.Some? && QueueHoldsActions(st)
    ensures var r := EndSession(st, reason, siteId);
            && r.st.session == (if st.queue == [] then None else Some(st.queue[0]))
            && r.st.queue == (if st.queue == [] then [] else st.queue[1..])
            && r.out == Closing(Current(st), reason, siteId) + Resume(st)
  {
    if st.queue == [] {
      EndSessionWhenLast(st, reason, siteId);
      var closing := Closing(Current(st), reason, siteId);
      assert closing + Resume(st) == closing;
    } else {
      EndSessionPopsFront(st, reason, siteId);
    }
  }

  lemma ResumeEndsNothing(st: State)
    requires Valid(st) && QueueHoldsActions(st)
    ensures EndedIds(Resume(st)) == []
  {
    if st.queue != [] {
      var q := st.objects[st.queue[0]];
      PromptEndsNothing("default", q.sessionId, q.request.init.text, q);
      EndedIdsAppend(Prompt("default", q.sessionId, q.request.init.text),
                     [DialogueSessionStarted("default", q.sessionId, q.request.customData)]);
    }
  }

  /** end_session announces exactly one end: the current session's. */
  lemma EndSessionEndsOnce(st: State, reason: Reason, siteId: string)
    requires Valid(st) && st.session.Some? && QueueHoldsActions(st)
    ensures EndedIds(EndSession(st, reason, siteId).out) == [Current(st).sessionId]
  {
    EndSessionPopsFront(st, reason, siteId);
    var closing := Closing(Current(st), reason, siteId);
    ClosingEndsOnce(Current(st), reason, siteId);
    ResumeEndsNothing(st);
    EndedIdsAppend(closing, Resume(st));
  }

  // ---------------------------------------------------------------------------
  // What each handler publishes in a reachable state

  /** A notification on an idle manager is spoken, ended, announced as started, and stays current. */
  lemma NotificationWhenIdle(st: State, request: StartRequest, sessionId: string)
    requires Invariant(st) && st.session.None? && request.init.Notification?
    ensures var r := HandleStart(st, request, sessionId);
            && r.st.session == Some(|st.objects|) && r.st.queue == []
            && r.out == SayIf(request.siteId, sessionId, Some(request.init.notice))
                        + [DialogueSessionEnded(sessionId, Some(""), Nominal),
                           DialogueSessionStarted(request.siteId, sessionId, Some(""))]
  {
    var ref := |st.objects|;
    var st1 := st.(objects := st.objects + [NewSession(sessionId, request.siteId, request)]);
    var st2 := st1.(session := Some(ref));
    var ended := EndSession(st2, Nominal, request.siteId);
    assert ended == Step(st1, [DialogueSessionEnded(sessionId, Some(""), Nominal)]);
    var say := SayIf(request.siteId, sessionId, Some(request.init.notice));
    assert HandleStart(st, request, sessionId) == StartSession(st1, ref, request.siteId);
    assert StartSession(st1, ref, request.siteId)
        == Step(st2, say + ended.out + [DialogueSessionStarted(request.siteId, sessionId, Some(""))]);
  }

  /**
    A notification while a session is active ends that session instead of
    itself, resumes the queue's front, and then overwrites the current slot.
   */
  lemma NotificationWhileActive(st: State, request: StartRequest, sessionId: string)
    requires Invariant(st) && st.session.Some? && request.init.Notification?
    ensures var r := HandleStart(st, request, sessionId);
            var prev := Current(st);
            && r.st.session == Some(|st.objects|)
            && r.st.queue == (if st.queue == [] then [] else st.queue[1..])
            && r.out == SayIf(request.siteId, prev.sessionId, Some(request.init.notice))
                        + (Closing(prev, Nominal, request.siteId) + Resume(st))
                        + [DialogueSessionStarted(request.siteId, sessionId, Some(""))]
  {
    var ref := |st.objects|;
    var st1 := st.(objects := st.objects + [NewSession(sessionId, request.siteId, request)]);
    assert Valid(st1) && QueueHoldsActions(st1) && ref !in st1.queue;
    assert Current(st1) == Current(st) && Resume(st1) == Resume(st);
    assert HandleStart(st, request, sessionId) == StartSession(st1, ref, request.siteId);
    NotificationStartUnfolds(st1, ref, request.siteId);
    EndSessionResult(st1, Nominal, request.siteId);
  }

  /** start_session of a notification while a session is active, one step unfolded. */
  lemma NotificationStartUnfolds(st: State, ref: Ref, siteId: string)
    requires Valid(st) && st.session.Some? && ref < |st.objects| && ref !in st.queue
    requires st.objects[ref].request.init.Notification?
    ensures var s := st.objects[ref];
            var ended := EndSession(st, Nominal, siteId);
            StartSession(st, ref, siteId)
              == Step(ended.st.(session := Some(ref)),
                      SayIf(siteId, Current(st).sessionId, Some(s.request.init.notice)) + ended.out
                      + [DialogueSessionStarted(siteId, s.sessionId, s.customData)])
  {
    var ended := EndSession(st, Nominal, siteId);
    assert ended.st.objects[ref] == st.objects[ref];
  }

  /** A wake word starts its session at once, aborting the active one first if there is one. */
  lemma WakeOutputs(st: State, wakewordId: string, detected: HotwordDetected, suffix: string)
    requires Valid(st)
    ensures var r := HandleWake(st, wakewordId, detected, suffix);
            var id := WakeSessionId(wakewordId, detected, suffix);
            var listen := [HotwordToggleOff("default"), AsrStartListening("default", id),
                           DialogueSessionStarted("default", id, Some(wakewordId))];
            && (st.session.None? ==> r.out == listen)
            && (st.session.Some? ==> r.out == Closing(Current(st), AbortedByUser, detected.siteId) + listen)
  {
    var ref := |st.objects|;
    var request := StartRequest(detected.siteId, Action(None, None, false, false), Some(wakewordId));
    var s := NewSession(WakeSessionId(wakewordId, detected, suffix), detected.siteId, request);
    var st1 := st.(objects := st.objects + [s]);
    if st.session.Some? {
      var st2 := st1.(queue := [ref] + st.queue);
      assert st2.queue[1..] == st.queue;
      var started := StartSession(st2.(session := None, queue := st.queue), ref, "default");
      assert started.out == Prompt("default", s.sessionId, None)
                            + [DialogueSessionStarted("default", s.sessionId, Some(wakewordId))];
      assert EndSession(st2, AbortedByUser, detected.siteId)
          == Step(started.st, Closing(Current(st2), AbortedByUser, detected.siteId) + started.out);
    }
  }

  /** An end request with sessions queued resumes the front one and re-enables its site's hotword. */
  lemma EndResumesQueue(st: State)
    requires Invariant(st) && st.session.Some? && st.queue != []
    ensures var r := HandleEnd(st);
            var q := st.objects[st.queue[0]];
            && r.st.session == Some(st.queue[0]) && r.st.queue == st.queue[1..]
            && r.out == Closing(Current(st), Nominal, Current(st).siteId) + Resume(st)
                        + [HotwordToggleOn(q.siteId)]
  {
    EndSessionPopsFront(st, Nominal, Current(st).siteId);
  }

  /** An unrecognized intent optionally notifies the client, then ends the session like an end request. */
  lemma NotRecognizedOutputs(st: State, notRecognized: NotRecognized)
    requires Invariant(st) && st.session.Some?
    ensures var r := HandleNotRecognized(st, notRecognized);
            var s := Current(st);
            var notice := if s.sendIntentNotRecognized
                          then [DialogueIntentNotRecognized(s.sessionId, s.customData,
                                                            notRecognized.siteId, notRecognized.input)]
                          else [];
            && r.st.session == (if st.queue == [] then None else Some(st.queue[0]))
            && r.st.queue == (if st.queue == [] then [] else st.queue[1..])
            && r.out == notice + (Closing(s, IntentNotRecognized, notRecognized.siteId) + Resume(st))
  {
    var s := Current(st);
    var notice := if s.sendIntentNotRecognized
                  then [DialogueIntentNotRecognized(s.sessionId, s.customData,
                                                    notRecognized.siteId, notRecognized.input)]
                  else [];
    var ended := EndSession(st, IntentNotRecognized, notRecognized.siteId);
    EndSessionResult(st, IntentNotRecognized, notRecognized.siteId);
    assert HandleNotRecognized(st, notRecognized) == Step(ended.st, notice + ended.out);
  }

  // ---------------------------------------------------------------------------
  // The invariant holds from construction on

  lemma InitialInvariant()
    ensures Invariant(Initial)
  {
  }

  /** Objects added or updated without touching their requests keep queued sessions actions. */
  lemma QueueHoldsActionsCarries(st: State, st': State)
    requires Valid(st) && QueueHoldsActions(st) && Valid(st')
    requires KeepsIdentity(st.objects, st'.objects)
    requires IsSuffix(st'.queue, st.queue)
    ensures QueueHoldsActions(st')
  {
    forall i | 0 <= i < |st'.queue|
      ensures st'.objects[st'.queue[i]].request.init.Action?
    {
      var j := |st.queue| - |st'.queue| + i;
      assert st'.queue[i] == st.queue[j];
    }
  }

  lemma HandleStartKeepsInvariant(st: State, request: StartRequest, sessionId: string)
    requires Invariant(st)
    ensures Invariant(HandleStart(st, request, sessionId).st)
  {
    var r := HandleStart(st, request, sessionId);
    if request.init.Notification? {
      if st.session.None? {
        NotificationWhenIdle(st, request, sessionId);
      } else {
        NotificationWhileActive(st, request, sessionId);
        QueueHoldsActionsCarries(st, r.st);
      }
    } else {
      forall i | 0 <= i < |r.st.queue|
        ensures r.st.objects[r.st.queue[i]].request.init.Action?
      {
        if i < |st.queue| {
          assert r.st.queue[i] == st.queue[i];
        }
      }
    }
  }

  lemma HandleEndKeepsInvariant(st: State)
    requires Invariant(st)
    ensures Invariant(HandleEnd(st).st)
  {
    if st.session.Some? && st.queue != [] {
      EndResumesQueue(st);
      QueueHoldsActionsCarries(st, HandleEnd(st).st);
    }
  }

  lemma HandleNotRecognizedKeepsInvariant(st: State, notRecognized: NotRecognized)
    requires Invariant(st)
    ensures Invariant(HandleNotRecognized(st, notRecognized).st)
  {
    if st.session.Some? {
      NotRecognizedOutputs(st, notRecognized);
      var r := HandleNotRecognized(st, notRecognized);
      if st.queue != [] {
        QueueHoldsActionsCarries(st, r.st);
      }
    }
  }

  /** Every admitted or dropped message keeps the manager in a reachable state. */
  lemma ReceiveKeepsInvariant(cfg: Config, st: State, ev: Event)
    requires Invariant(st)
    ensures Invariant(Receive(cfg, st, ev).st)
  {
    var r := Receive(cfg, st, ev);
    if Admitted(cfg, st, ev) {
      match ev
      case StartEvent(_, start, freshId) => HandleStartKeepsInvariant(st, start, freshId);
      case ContinueEvent(_, proceed) => QueueHoldsActionsCarries(st, r.st);
      case EndEvent(_) => HandleEndKeepsInvariant(st);
      case TextCapturedEvent(_, captured) => QueueHoldsActionsCarries(st, r.st);
      case NotRecognizedEvent(_, notRecognized) => HandleNotRecognizedKeepsInvariant(st, notRecognized);
      case HotwordEvent(_, w, detected, suffix) => QueueHoldsActionsCarries(st, r.st);
    }
  }

  /** Any sequence of messages keeps the manager in a reachable state. */
  lemma {:induction false} RunKeepsInvariant(cfg: Config, st: State, events: seq<Event>)
    requires Invariant(st)
    ensures Invariant(Run(cfg, st, events).st)
    decreases |events|
  {
    if events != [] {
      ReceiveKeepsInvariant(cfg, st, events[0]);
      RunKeepsInvariant(cfg, Receive(cfg, st, events[0]).st, events[1..]);
    }
  }

  // ---------------------------------------------------------------------------
  // At most one session end per message

  /** The session an admitted message ends, if any, read off the message kind alone. */
  function EndedBy(st: State, ev: Event): Option<string>
    requires Valid(st)
  {
    match ev
    case StartEvent(_, start, freshId) =>
      if start.init.Action? then None
      else if st.session.Some? then Some(Current(st).sessionId)
      else Some(freshId)
    case ContinueEvent(_, _) => None
    case TextCapturedEvent(_, _) => None
    case EndEvent(_) => if st.session.Some? then Some(Current(st).sessionId) else None
    case NotRecognizedEvent(_, _) => if st.session.Some? then Some(Current(st).sessionId) else None
    case HotwordEvent(_, _, _, _) => if st.session.Some? then Some(Current(st).sessionId) else None
  }

  lemma ActionStartEndsNothing(st: State, request: StartRequest, sessionId: string)
    requires Valid(st) && request.init.Action?
    ensures EndedIds(HandleStart(st, request, sessionId).out) == []
  {
    var started := DialogueSessionStarted(request.siteId, sessionId, request.customData);
    if st.session.None? {
      var prompt := Prompt(request.siteId, sessionId, request.init.text);
      PromptEndsNothing(request.siteId, sessionId, request.init.text, NewSession(sessionId, request.siteId, request));
      EndedIdsAppend(prompt, [started]);
    } else {
      NoEndsNoIds(HandleStart(st, request, sessionId).out);
    }
  }

  lemma NotificationEndsCurrent(st: State, request: StartRequest, sessionId: string)
    requires Invariant(st) && request.init.Notification? && st.session.Some?
    ensures EndedIds(HandleStart(st, request, sessionId).out) == [Current(st).sessionId]
  {
    NotificationWhileActive(st, request, sessionId);
    var say := SayIf(request.siteId, Current(st).sessionId, Some(request.init.notice));
    var closing := Closing(Current(st), Nominal, request.siteId);
    var started := DialogueSessionStarted(request.siteId, sessionId, Some(""));
    PromptEndsNothing(request.siteId, Current(st).sessionId, Some(request.init.notice), Current(st));
    EndedIdsAppend(say, [HotwordToggleOff(request.siteId), AsrStartListening(request.siteId, Current(st).sessionId)]);
    ClosingEndsOnce(Current(st), Nominal, request.siteId);
    ResumeEndsNothing(st);
    EndedIdsAppend(closing, Resume(st));
    EndedIdsAppend(say, closing + Resume(st));
    EndedIdsAppend(say + (closing + Resume(st)), [started]);
  }

  lemma NotificationEndsItself(st: State, request: StartRequest, sessionId: string)
    requires Invariant(st) && request.init.Notification? && st.session.None?
    ensures EndedIds(HandleStart(st, request, sessionId).out) == [sessionId]
  {
    NotificationWhenIdle(st, request, sessionId);
    var say := SayIf(request.siteId, sessionId, Some(request.init.notice));
    var rest := [DialogueSessionEnded(sessionId, Some(""), Nominal),
                 DialogueSessionStarted(request.siteId, sessionId, Some(""))];
    PromptEndsNothing(request.siteId, sessionId, Some(request.init.notice), NewSession(sessionId, request.siteId, request));
    EndedIdsAppend(say, [HotwordToggleOff(request.siteId), AsrStartListening(request.siteId, sessionId)]);
    EndedIdsAppend(say, rest);
  }

  lemma HandleEndEnds(st: State)
    requires Invariant(st) && st.session.Some?
    ensures EndedIds(HandleEnd(st).out) == [Current(st).sessionId]
  {
    var ended := EndSession(st, Nominal, Current(st).siteId);
    EndSessionEndsOnce(st, Nominal, Current(st).siteId);
    if ended.st.session.Some? {
      EndedIdsAppend(ended.out, [HotwordToggleOn(Current(ended.st).siteId)]);
    }
  }

  lemma HandleNotRecognizedEnds(st: State, notRecognized: NotRecognized)
    requires Invariant(st) && st.session.Some?
    ensures EndedIds(HandleNotRecognized(st, notRecognized).out) == [Current(st).sessionId]
  {
    var s := Current(st);
    var notice := if s.sendIntentNotRecognized
                  then [DialogueIntentNotRecognized(s.sessionId, s.customData,
                                                    notRecognized.siteId, notRecognized.input)]
                  else [];
    EndSessionEndsOnce(st, IntentNotRecognized, notRecognized.siteId);
    EndedIdsAppend(notice, EndSession(st, IntentNotRecognized, notRecognized.siteId).out);
  }

  lemma HandleWakeEnds(st: State, wakewordId: string, detected: HotwordDetected, suffix: string)
    requires Valid(st)
    ensures EndedIds(HandleWake(st, wakewordId, detected, suffix).out)
         == if st.session.Some? then [Current(st).sessionId] else []
  {
    WakeOutputs(st, wakewordId, detected, suffix);
    var id := WakeSessionId(wakewordId, detected, suffix);
    var listen := [HotwordToggleOff("default"), AsrStartListening("default", id),
                   DialogueSessionStarted("default", id, Some(wakewordId))];
    NoEndsNoIds(listen);
    if st.session.Some? {
      ClosingEndsOnce(Current(st), AbortedByUser, detected.siteId);
      EndedIdsAppend(Closing(Current(st), AbortedByUser, detected.siteId), listen);
    }
  }

  /** A start request ends nothing for an action, else the active session or, when idle, itself. */
  lemma HandleStartEnds(st: State, request: StartRequest, sessionId: string)
    requires Invariant(st)
    ensures EndedIds(HandleStart(st, request, sessionId).out)
         == if request.init.Action? then []
            else if st.session.Some? then [Current(st).sessionId]
            else [sessionId]
  {
    if request.init.Action? {
      ActionStartEndsNothing(st, request, sessionId);
    } else if st.session.Some? {
      NotificationEndsCurrent(st, request, sessionId);
    } else {
      NotificationEndsItself(st, request, sessionId);
    }
  }

  /**
    Whatever arrives, at most one DialogueSessionEnded is published, and it
    names exactly the session the message kind says is ended.
   */
  lemma ReceiveEndsAtMostOnce(cfg: Config, st: State, ev: Event)
    requires Invariant(st)
    ensures EndedIds(Receive(cfg, st, ev).out)
         == if Admitted(cfg, st, ev) && EndedBy(st, ev).Some? then [EndedBy(st, ev).value] else []
  {
    var r := Receive(cfg, st, ev);
    if Admitted(cfg, st, ev) {
      match ev
      case StartEvent(_, start, freshId) =>
        assert r == HandleStart(st, start, freshId);
        HandleStartEnds(st, start, freshId);
      case ContinueEvent(_, proceed) =>
        assert r == HandleContinue(st, proceed);
        if st.session.Some? {
          var s := Current(st);
          PromptEndsNothing(s.siteId, s.sessionId, proceed.text, s);
        }
      case EndEvent(_) =>
        assert r == HandleEnd(st);
        if st.session.Some? {
          HandleEndEnds(st);
        }
      case TextCapturedEvent(_, captured) =>
        assert r == HandleTextCaptured(st, captured);
        var s := Current(st);
        var out := [AsrStopListening(captured.siteId, s.sessionId), HotwordToggleOn(captured.siteId),
                    NluQuery(captured.text, s.intentFilter, s.sessionId)];
        NoEndsNoIds(out);
      case NotRecognizedEvent(_, notRecognized) =>
        assert r == HandleNotRecognized(st, notRecognized);
        HandleNotRecognizedEnds(st, notRecognized);
      case HotwordEvent(_, w, detected, suffix) =>
        assert r == HandleWake(st, w, detected, suffix);
        HandleWakeEnds(st, w, detected, suffix);
    } else {
      assert r.out == [];
    }
  }

  // ---------------------------------------------------------------------------
  // Filters against handlers

  /** Once a session is started, exactly the messages carrying its id pass the session filter. */
  lemma StartedSessionAdmitted(st: State, request: StartRequest, sessionId: string, payload: Payload)
    requires Valid(st)
    ensures CheckSessionId(HandleStart(st, request, sessionId).st, payload)
        <==> Get(payload, "sessionId", "") == sessionId
  {
  }

  lemma WakeSessionAdmitted(st: State, wakewordId: string, detected: HotwordDetected, suffix: string,
                            payload: Payload)
    requires Valid(st)
    ensures CheckSessionId(HandleWake(st, wakewordId, detected, suffix).st, payload)
        <==> Get(payload, "sessionId", "") == WakeSessionId(wakewordId, detected, suffix)
  {
  }

  /** After the last session ends, late ASR and NLU results are dropped without effect. */
  lemma FinalEndDropsStaleResults(cfg: Config, st: State, payload: Payload,
                                  captured: TextCaptured, notRecognized: NotRecognized)
    requires Invariant(st) && st.session.Some? && st.queue == []
    ensures var idle := HandleEnd(st).st;
            && !CheckSessionId(idle, payload)
            && Receive(cfg, idle, TextCapturedEvent(payload, captured)) == Step(idle, [])
            && Receive(cfg, idle, NotRecognizedEvent(payload, notRecognized)) == Step(idle, [])
  {
  }

  /** With site ids configured, session control and hotwords from other sites change nothing. */
  lemma ForeignSiteDropped(cfg: Config, st: State, ev: Event)
    requires Valid(st)
    requires cfg.siteIds != [] && Get(ev.payload, "siteId", "default") !in cfg.siteIds
    requires !ev.TextCapturedEvent? && !ev.NotRecognizedEvent?
    ensures Receive(cfg, st, ev) == Step(st, [])
  {
  }

  /** With site ids configured or none at all, a message from an admitted site reaches its handler. */
  lemma LocalSiteHandled(cfg: Config, st: State, ev: Event)
    requires Valid(st)
    requires cfg.siteIds == [] || Get(ev.payload, "siteId", "default") in cfg.siteIds
    ensures ev.StartEvent? ==> Receive(cfg, st, ev) == HandleStart(st, ev.start, ev.freshId)
    ensures ev.ContinueEvent? ==> Receive(cfg, st, ev) == HandleContinue(st, ev.proceed)
    ensures ev.EndEvent? ==> Receive(cfg, st, ev) == HandleEnd(st)
    ensures ev.HotwordEvent? && ev.wakewordId in cfg.wakewordIds ==>
              Receive(cfg, st, ev) == HandleWake(st, ev.wakewordId, ev.detected, ev.freshSuffix)
  {
  }

  /** While a session is active, ASR and NLU results for any other session id are dropped. */
  lemma StaleResultDropped(cfg: Config, st: State, ev: Event)
    requires Valid(st) && st.session.Some?
    requires ev.TextCapturedEvent? || ev.NotRecognizedEvent?
    requires Get(ev.payload, "sessionId", "") != Current(st).sessionId
    ensures Receive(cfg, st, ev) == Step(st, [])
  {
  }

  /** ASR and NLU results carrying the current session's id reach their handler. */
  lemma CurrentResultHandled(cfg: Config, st: State, ev: Event)
    requires Valid(st) && st.session.Some?
    requires Get(ev.payload, "sessionId", "") == Current(st).sessionId
    ensures ev.TextCapturedEvent? ==> Receive(cfg, st, ev) == HandleTextCaptured(st, ev.captured)
    ensures ev.NotRecognizedEvent? ==> Receive(cfg, st, ev) == HandleNotRecognized(st, ev.notRecognized)
  {
  }

  /** Hotwords are only subscribed to for the configured wake word ids. */
  lemma UnsubscribedWakewordIgnored(cfg: Config, st: State, payload: Payload, wakewordId: string,
                                    detected: HotwordDetected, suffix: string)
    requires Valid(st) && wakewordId !in cfg.wakewordIds
    ensures Receive(cfg, st, HotwordEvent(payload, wakewordId, detected, suffix)) == Step(st, [])
  {
  }

  // ---------------------------------------------------------------------------
  // An action's NLU settings, end to end

  /**
    An action started on an idle manager hands its intent filter to the NLU
    query of the captured text, and its sendIntentNotRecognized decides
    whether a not-recognized result is reported before the session ends,
    with or without text captured first.
   */
  lemma ActionSettingsReachNlu(st: State, request: StartRequest, sessionId: string,
                               captured: TextCaptured, notRecognized: NotRecognized)
    requires Valid(st) && st.session.None? && request.init.Action?
    ensures var started := HandleStart(st, request, sessionId);
            var heard := HandleTextCaptured(started.st, captured);
            var notice := DialogueIntentNotRecognized(sessionId, request.customData,
                                                      notRecognized.siteId, notRecognized.input);
            var early := HandleNotRecognized(started.st, notRecognized);
            var late := HandleNotRecognized(heard.st, notRecognized);
            && heard.out[2] == NluQuery(captured.text, request.init.intentFilter, sessionId)
            && early.out[0] == (if request.init.sendIntentNotRecognized then notice
                                else AsrStopListening(notRecognized.siteId, sessionId))
            && late.out[0] == (if request.init.sendIntentNotRecognized then notice
                               else DialogueSessionEnded(sessionId, request.customData, IntentNotRecognized))
  {
  }

  // ---------------------------------------------------------------------------
  // Consequences of start_session making every new session current

  /**
    A session queued behind an active one becomes current at once, so the
    next end request ends the queued session (never the one it waited for)
    and restarts it from the queue.
   */
  lemma EnqueuedSessionRestartsOnEnd(st: State, request: StartRequest, sessionId: string)
    requires Invariant(st) && st.session.Some? && st.queue == []
    requires request.init.Action? && request.init.canBeEnqueued
    ensures var started := HandleStart(st, request, sessionId);
            var r := HandleEnd(started.st);
            && r.st.session == Some(|st.objects|) && r.st.queue == []
            && r.out == [AsrStopListening(request.siteId, sessionId),
                         DialogueSessionEnded(sessionId, request.customData, Nominal)]
                        + Prompt("default", sessionId, request.init.text)
                        + [DialogueSessionStarted("default", sessionId, request.customData),
                           HotwordToggleOn(request.siteId)]
            && EndedIds(started.out + r.out) == [sessionId]
  {
    var ref := |st.objects|;
    var started := HandleStart(st, request, sessionId);
    var queued := started.st.objects[ref];
    assert Invariant(started.st) && started.st.session == Some(ref) && started.st.queue == [ref]
        && queued.sessionId == sessionId && queued.siteId == request.siteId
        && queued.request == request && queued.customData == request.customData
        && queued.textCaptured.None? by {
      HandleStartKeepsInvariant(st, request, sessionId);
    }
    var closing := [AsrStopListening(request.siteId, sessionId),
                    DialogueSessionEnded(sessionId, request.customData, Nominal)];
    var resume := Prompt("default", sessionId, request.init.text)
                  + [DialogueSessionStarted("default", sessionId, request.customData)];
    var r := HandleEnd(started.st);
    assert r.st.session == Some(ref) && r.st.queue == []
        && r.out == closing + resume + [HotwordToggleOn(request.siteId)] by {
      EndResumesQueue(started.st);
      assert Closing(queued, Nominal, queued.siteId) == closing;
      assert Resume(started.st) == resume;
    }
    assert EndedIds(started.out + r.out) == [sessionId] by {
      ActionStartEndsNothing(st, request, sessionId);
      HandleEndEnds(started.st);
      EndedIdsAppend(started.out, r.out);
    }
  }

  /**
    The queued and the current session are one shared object: text captured
    while it is current survives its restart from the queue, so ending it
    afterwards publishes no AsrStopListening.
   */
  lemma CapturedTextSurvivesRestart(st: State, request: StartRequest, sessionId: string,
                                    captured: TextCaptured)
    requires Invariant(st) && st.session.Some? && st.queue == []
    requires request.init.Action? && request.init.canBeEnqueued
    ensures var st1 := HandleStart(st, request, sessionId).st;
            var st2 := HandleTextCaptured(st1, captured).st;
            var st3 := HandleEnd(st2).st;
            && st3.session == Some(|st.objects|)
            && HandleEnd(st3).out == [DialogueSessionEnded(sessionId, request.customData, Nominal)]
  {
    var st1 := HandleStart(st, request, sessionId).st;
    HandleStartKeepsInvariant(st, request, sessionId);
    var ref := |st.objects|;
    var st2 := HandleTextCaptured(st1, captured).st;
    assert st2.objects[ref].textCaptured == Some(captured);
    assert Invariant(st2);
    EndResumesQueue(st2);
    var popped := st2.(session := None, queue := st2.queue[1..]);
    var restarted := StartSession(popped, ref, "default");
    assert EndSession(st2, Nominal, Current(st2).siteId)
        == Step(restarted.st, Closing(Current(st2), Nominal, Current(st2).siteId) + restarted.out);
    var st3 := HandleEnd(st2).st;
    assert st3 == restarted.st;
    assert Current(st3).textCaptured == Some(captured);
    assert Current(st3).customData == request.customData;
  }
}
