/** `EventsView`: the authenticated `GET` (a filtered, canonically ordered
    list of events) and `POST` (validate, then enqueue and answer 204, or
    answer 400 with the errors). Token authentication is an input: the
    caller's application id, or none. */
module Views {
  import opened Outcomes
  import opened Schema
  import Ordering
  import Serializer
  import Auth

  /** A work-queue message: `handle_event.delay(application_id, data)`. */
  datatype Message = Message(application: Auth.AppId, payload: Payload)

  datatype Response =
    | Listed(events: seq<Event>)
    | NoContent
    | BadRequest(errors: Serializer.Errors)
    | Unauthorized
    | ServerError(failure: Failure)
  {
    function Status(): int {
      match this
      case Listed(_) => 200
      case NoContent => 204
      case BadRequest(_) => 400
      case Unauthorized => 401
      case ServerError(_) => 500
    }
  }

  /** The store and queue after a request, and its response. */
  datatype Exchange = Exchange(store: Store, queue: seq<Message>, response: Response)

  /** The ORM lookups `get` builds: `session_id`, `category`,
      `timestamp__lt`, `timestamp__gte`. */
  datatype Lookups = Lookups(
    sessionId: Option<Uuid>,
    category: Option<string>,
    timestampLt: Option<Timestamp>,
    timestampGte: Option<Timestamp>)

  /** A query parameter that is present and non-empty, i.e. truthy. */
  function Param(params: map<string, string>, key: string): Option<string> {
    if key in params && params[key] != "" then Some(params[key]) else None
  }

  /** The lookups of `get`: one per present, non-empty query parameter. The
      text of a parameter is read by the given parsers. */
  function BuildLookups(params: map<string, string>, parseUuid: string -> Uuid, parseTime: string -> Timestamp): (lk: Lookups)
    ensures lk.sessionId.Some? <==> "session_id" in params && params["session_id"] != ""
    ensures lk.category.Some? <==> "category" in params && params["category"] != ""
    ensures lk.timestampLt.Some? <==> "timestamp_before" in params && params["timestamp_before"] != ""
    ensures lk.timestampGte.Some? <==> "timestamp_after" in params && params["timestamp_after"] != ""
    ensures lk.sessionId.Some? ==> lk.sessionId.value == parseUuid(params["session_id"])
    ensures lk.category.Some? ==> lk.category.value == params["category"]
    ensures lk.timestampLt.Some? ==> lk.timestampLt.value == parseTime(params["timestamp_before"])
    ensures lk.timestampGte.Some? ==> lk.timestampGte.value == parseTime(params["timestamp_after"])
  {
    Lookups(
      match Param(params, "session_id") { case Some(v) => Some(parseUuid(v)) case None => None },
      Param(params, "category"),
      match Param(params, "timestamp_before") { case Some(v) => Some(parseTime(v)) case None => None },
      match Param(params, "timestamp_after") { case Some(v) => Some(parseTime(v)) case None => None })
  }

  /** A row satisfies every active lookup; an inactive one constrains nothing. */
  predicate Matches(e: Event, lk: Lookups) {
    && (lk.sessionId.Some? ==> e.session == lk.sessionId.value)
    && (lk.category.Some? ==> e.category == lk.category.value)
    && (lk.timestampLt.Some? ==> e.timestamp < lk.timestampLt.value)
    && (lk.timestampGte.Some? ==> e.timestamp >= lk.timestampGte.value)
  }

  /** `Event.objects.filter(**lookups)` before ordering: the matching rows,
      each as often as it is stored. */
  function Filter(events: seq<Event>, lk: Lookups): (r: seq<Event>)
    ensures forall e :: multiset(r)[e] == if Matches(e, lk) then multiset(events)[e] else 0
    ensures |r| <= |events|
    decreases |events|
  {
    if |events| == 0 then []
    else
      var rest := Filter(events[1..], lk);
      assert events == [events[0]] + events[1..];
      if Matches(events[0], lk) then [events[0]] + rest else rest
  }

  /** `EventsView.get`. Unauthenticated callers get 401; otherwise the
      matching events in canonical order, with 200. */
  function Get(st: Store, user: Option<Auth.AppId>, params: map<string, string>,
               parseUuid: string -> Uuid, parseTime: string -> Timestamp): (r: Response)
    ensures user.None? <==> r == Unauthorized
    ensures user.Some? ==> r.Listed? && Ordering.Sorted(r.events)
    ensures user.Some? ==> forall e :: e in r.events ==> e in st.events && Matches(e, BuildLookups(params, parseUuid, parseTime))
    ensures user.Some? ==> forall e :: e in st.events && Matches(e, BuildLookups(params, parseUuid, parseTime)) ==> e in r.events
  {
    match user
    case None => Unauthorized
    case Some(_) =>
      var lk := BuildLookups(params, parseUuid, parseTime);
      var rows := Ordering.Sort(Filter(st.events, lk));
      assert forall e :: e in rows <==> e in st.events && Matches(e, lk) by {
        forall e ensures e in rows <==> e in st.events && Matches(e, lk) {
          assert e in rows <==> multiset(rows)[e] > 0;
          assert e in st.events <==> multiset(st.events)[e] > 0;
        }
      }
      Listed(rows)
  }

  /** `EventsView.post` at time `now`. Unauthenticated callers get 401 and
      nothing else happens. Otherwise the serializer runs (and may create a
      session); a valid body is enqueued once, as received, tagged with the
      caller's id, and answered 204; an invalid one is answered 400 with the
      errors and enqueues nothing. */
  function Post(st: Store, queue: seq<Message>, user: Option<Auth.AppId>, body: Payload, now: Timestamp): (r: Exchange)
    ensures user.None? ==> r == Exchange(st, queue, Unauthorized)
    ensures user.Some? ==> r.store == Serializer.Validate(st, user.value, body, now).store
    ensures r.response.NoContent? <==> user.Some? && Serializer.Validate(st, user.value, body, now).verdict.Valid?
    ensures r.response.NoContent? ==> r.queue == queue + [Message(user.value, body)]
    ensures !r.response.NoContent? ==> r.queue == queue
    ensures r.response.BadRequest? <==>
      user.Some? && Serializer.Validate(st, user.value, body, now).verdict.Invalid?
    ensures r.response.BadRequest? ==>
      r.response.errors == Serializer.Validate(st, user.value, body, now).verdict.errors
    ensures r.response.Status() in {204, 400, 401, 500}
  {
    match user
    case None => Exchange(st, queue, Unauthorized)
    case Some(app) =>
      var checked := Serializer.Validate(st, app, body, now);
      match checked.verdict
      case Valid => Exchange(checked.store, queue + [Message(app, body)], NoContent)
      case Invalid(errors) => Exchange(checked.store, queue, BadRequest(errors))
      case Raised(f) => Exchange(checked.store, queue, ServerError(f))
  }

  /** With no query parameters every stored event is listed, each as often as
      stored, with 200. */
  lemma {:induction false} NoParamsListsEverything(st: Store, app: Auth.AppId, parseUuid: string -> Uuid, parseTime: string -> Timestamp)
    ensures var r := Get(st, Some(app), map[], parseUuid, parseTime);
      && r.Status() == 200
      && multiset(r.events) == multiset(st.events)
  {
    var lk := BuildLookups(map[], parseUuid, parseTime);
    var rows := Filter(st.events, lk);
    assert multiset(rows) == multiset(st.events);
  }

  /** The listed rows are exactly the matching stored rows, with their
      multiplicities: nothing matching is dropped, nothing else is shown. */
  lemma {:induction false} GetListsExactlyMatching(st: Store, app: Auth.AppId, params: map<string, string>,
                                parseUuid: string -> Uuid, parseTime: string -> Timestamp)
    ensures var r := Get(st, Some(app), params, parseUuid, parseTime);
      var lk := BuildLookups(params, parseUuid, parseTime);
      forall e :: multiset(r.events)[e] == if Matches(e, lk) then multiset(st.events)[e] else 0
  {
  }

  /** `timestamp_before` is exclusive and `timestamp_after` inclusive: a row
      stamped exactly at either bound is dropped by the first and kept by the
      second. */
  lemma {:induction false} TimeBoundsSemantics(e: Event, lk: Lookups)
    requires lk.sessionId.None? && lk.category.None?
    ensures lk.timestampLt == Some(e.timestamp) ==> !Matches(e, lk)
    ensures lk.timestampLt.None? && lk.timestampGte == Some(e.timestamp) ==> Matches(e, lk)
    ensures lk.timestampLt.Some? && lk.timestampGte.Some? ==>
      (Matches(e, lk) <==> lk.timestampGte.value <= e.timestamp < lk.timestampLt.value)
  {
  }

  /** Empty parameters are ignored: adding keys with empty values to the
      query changes nothing. */
  lemma {:induction false} EmptyParamsIgnored(params: map<string, string>, extra: map<string, string>,
                           parseUuid: string -> Uuid, parseTime: string -> Timestamp)
    requires forall k :: k in extra ==> extra[k] == ""
    requires extra.Keys !! params.Keys
    ensures BuildLookups(params + extra, parseUuid, parseTime) == BuildLookups(params, parseUuid, parseTime)
  {
  }

  /** The listing is not scoped to the caller: every authenticated application
      sees the same rows, its own and everyone else's. */
  lemma {:induction false} GetIgnoresCaller(st: Store, a: Auth.AppId, b: Auth.AppId, params: map<string, string>,
                         parseUuid: string -> Uuid, parseTime: string -> Timestamp)
    ensures Get(st, Some(a), params, parseUuid, parseTime) == Get(st, Some(b), params, parseUuid, parseTime)
  {
  }

  /** A request without credentials gets 401 from both methods and changes
      neither the store nor the queue. */
  lemma {:induction false} UnauthenticatedRefused(st: Store, queue: seq<Message>, params: map<string, string>, body: Payload,
                               now: Timestamp, parseUuid: string -> Uuid, parseTime: string -> Timestamp)
    ensures Get(st, None, params, parseUuid, parseTime).Status() == 401
    ensures Post(st, queue, None, body, now) == Exchange(st, queue, Unauthorized)
    ensures Post(st, queue, None, body, now).response.Status() == 401
  {
  }
}
