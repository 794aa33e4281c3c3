/**
  The dialogue manager's state. Python shares one mutable SessionInfo object
  between the current-session slot and the queue, so sessions live in an
  object store and the slot and the queue hold references (indices) into it.
 */
module Session {
  import opened Hermes

  type Ref = nat

  /** A dialogue session, active or queued. */
  datatype SessionInfo = SessionInfo(
    sessionId: string,
    siteId: string,
    request: StartRequest,
    customData: Option<string>,
    intentFilter: Option<seq<string>>,
    sendIntentNotRecognized: bool,
    textCaptured: Option<TextCaptured>)

  /** A SessionInfo as constructed, with the class's field defaults. */
  function NewSession(sessionId: string, siteId: string, request: StartRequest): SessionInfo {
    SessionInfo(sessionId, siteId, request, Some(""), None, false, None)
  }

  /** Session objects, the current session (if any) and the pending queue, front first. */
  datatype State = State(objects: seq<SessionInfo>, session: Option<Ref>, queue: seq<Ref>)

  /** The state of a freshly constructed manager. */
  const Initial := State([], None, [])

  /** The result of handling one event: the new state and the messages published, in order. */
  datatype Step = Step(st: State, out: seq<Message>)

  /** Every reference in the state points at an allocated object. */
  predicate Valid(st: State) {
    && (st.session.Some? ==> st.session.value < |st.objects|)
    && forall i :: 0 <= i < |st.queue| ==> st.queue[i] < |st.objects|
  }

  function Current(st: State): SessionInfo
    requires Valid(st) && st.session.Some?
  {
    st.objects[st.session.value]
  }

  /** Objects are only ever added, and a session's id, site and request never change. */
  ghost predicate KeepsIdentity(objects: seq<SessionInfo>, objects': seq<SessionInfo>) {
    && |objects| <= |objects'|
    && forall i :: 0 <= i < |objects| ==>
         && objects'[i].sessionId == objects[i].sessionId
         && objects'[i].siteId == objects[i].siteId
         && objects'[i].request == objects[i].request
  }

  predicate IsSuffix<T(==)>(a: seq<T>, b: seq<T>) {
    |a| <= |b| && a == b[|b| - |a|..]
  }
}
