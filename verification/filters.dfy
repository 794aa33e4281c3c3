/**
  The two predicates that gate inbound messages before a handler sees them.
 */
module Filters {
  import opened Hermes
  import opened Session

  /** _check_siteId: every site passes when no site ids are configured. */
  function CheckSiteId(siteIds: seq<string>, payload: Payload): (ok: bool)
    ensures siteIds == [] ==> ok
    ensures siteIds != [] && "siteId" in payload ==> (ok <==> payload["siteId"] in siteIds)
    // A payload without a siteId counts as coming from site "default".
    ensures siteIds != [] && "siteId" !in payload ==> (ok <==> "default" in siteIds)
  {
    if siteIds != [] then Get(payload, "siteId", "default") in siteIds else true
  }

  /** _check_sessionId: only messages for the current session pass. */
  function CheckSessionId(st: State, payload: Payload): (ok: bool)
    requires Valid(st)
    ensures st.session.None? ==> !ok
    ensures ok ==> st.session.Some?
    ensures st.session.Some? && "sessionId" in payload ==>
              (ok <==> payload["sessionId"] == Current(st).sessionId)
    // A payload without a sessionId carries the empty id.
    ensures st.session.Some? && "sessionId" !in payload ==> (ok <==> Current(st).sessionId == "")
  {
    if st.session.Some? then Get(payload, "sessionId", "") == Current(st).sessionId else false
  }
}
