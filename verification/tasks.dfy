/** `handle_event`, the queued task: find the session under the calling
    application, create it on a miss, then insert the event. There is no
    transaction around the steps: a session created before a failed insert
    stays. */
module Tasks {
  import opened Outcomes
  import opened Schema
  import Auth

  /** The store after the task, and the exception it raised, if any. */
  datatype Step = Step(store: Store, failure: Option<Failure>)

  /** `payload.get('session_id')`: absent and `null` both give no id. */
  function SessionKey(p: Payload): Option<Uuid> {
    if p.sessionId.Given? then Some(p.sessionId.value) else None
  }

  /** `Session.objects.filter(application_id=app, id=sid).first()` found a
      row: the lookup matches on BOTH the id and the owner. */
  predicate FindOwned(st: Store, app: Auth.AppId, sid: Option<Uuid>) {
    sid.Some? && sid.value in st.sessions && st.sessions[sid.value] == app
  }

  /** The create that follows a lookup whose answer was `found`. Taking the
      answer as an argument lets another writer run between the two steps. */
  function ResolveAfterLookup(st: Store, app: Auth.AppId, sid: Option<Uuid>, found: bool): (r: Result<Store>)
    ensures found ==> r == Ok(st)
    ensures !found && sid.None? ==> r == Err(NotNullViolation("id"))
    ensures !found && sid.Some? ==> (r.Ok? <==> sid.value !in st.sessions && app in st.registry.apps)
    ensures !found && sid.Some? && sid.value in st.sessions ==> r == Err(UniqueViolation("id"))
    ensures !found && r.Ok? ==>
      && r.value.sessions == st.sessions[sid.value := app]
      && r.value.events == st.events
      && r.value.registry == st.registry
    ensures r.Err? ==> r.failure in {NotNullViolation("id"), UniqueViolation("id"), ForeignKeyViolation("application_id")}
    ensures Valid(st) && r.Ok? ==> Valid(r.value)
  {
    if found then Ok(st)
    else match sid
      case None => Err(NotNullViolation("id"))
      case Some(id) => CreateSession(st, id, app)
  }

  /** `handle_event(app, payload)`, run with no other writer in between. */
  function HandleEvent(st: Store, app: Auth.AppId, p: Payload): (r: Step)
    ensures r.failure.None? <==>
      && p.sessionId.Given?
      && (p.sessionId.value in st.sessions ==> st.sessions[p.sessionId.value] == app)
      && (p.sessionId.value !in st.sessions ==> app in st.registry.apps)
      && p.unknownKeys == {}
      && !TooLong(p.category) && !TooLong(p.name)
      && Row(p).Some?
    ensures r.failure.None? ==> r.store.events == st.events + [Row(p).value]
    ensures |r.store.events| == |st.events| + (if r.failure.None? then 1 else 0)
    ensures r.store.events[..|st.events|] == st.events
    ensures forall id :: id in st.sessions ==> id in r.store.sessions && r.store.sessions[id] == st.sessions[id]
    ensures forall id :: id in r.store.sessions && id !in st.sessions ==>
      p.sessionId == Given(id) && r.store.sessions[id] == app
    ensures r.store.registry == st.registry
    ensures Valid(st) ==> Valid(r.store)
  {
    var sid := SessionKey(p);
    match ResolveAfterLookup(st, app, sid, FindOwned(st, app, sid))
    case Err(f) => Step(st, Some(f))
    case Ok(st1) =>
      match CreateEvent(st1, p)
      case Err(f) => Step(st1, Some(f))
      case Ok(st2) => Step(st2, None)
  }

  /** A session already owned by `app` is reused: no session is created. */
  lemma {:induction false} ExistingOwnedSessionReused(st: Store, app: Auth.AppId, p: Payload)
    requires p.sessionId.Given? && p.sessionId.value in st.sessions
    requires st.sessions[p.sessionId.value] == app
    ensures HandleEvent(st, app, p).store.sessions == st.sessions
  {
  }

  /** An id seen nowhere is created for `app` and the event is then bound to
      it, carrying the payload's five values verbatim. */
  lemma {:induction false} AbsentSessionCreatedThenEventAppended(st: Store, app: Auth.AppId, p: Payload)
    requires app in st.registry.apps
    requires p.sessionId.Given? && p.sessionId.value !in st.sessions
    requires p.category.Given? && p.name.Given? && p.data.Given? && p.timestamp.Given?
    requires |p.category.value| <= MaxLength && |p.name.value| <= MaxLength
    requires p.unknownKeys == {}
    ensures var r := HandleEvent(st, app, p);
      && r.failure.None?
      && r.store.sessions == st.sessions[p.sessionId.value := app]
      && r.store.events == st.events
           + [Event(p.sessionId.value, p.category.value, p.name.value, p.data.value, p.timestamp.value)]
  {
  }

  /** An id owned by another application misses the lookup, and the create
      then hits the primary key: the task fails, nothing changes, and in
      particular no event is appended. */
  lemma {:induction false} ForeignSessionFails(st: Store, app: Auth.AppId, p: Payload)
    requires p.sessionId.Given? && p.sessionId.value in st.sessions
    requires st.sessions[p.sessionId.value] != app
    ensures HandleEvent(st, app, p) == Step(st, Some(UniqueViolation("id")))
  {
  }

  /** Running the task twice on one payload stores two events and one
      session: nothing deduplicates. */
  lemma {:induction false} NoDeduplication(st: Store, app: Auth.AppId, p: Payload)
    requires HandleEvent(st, app, p).failure.None?
    ensures var once := HandleEvent(st, app, p).store;
      var twice := HandleEvent(once, app, p);
      && twice.failure.None?
      && twice.store.sessions == once.sessions
      && twice.store.sessions.Keys == st.sessions.Keys + {p.sessionId.value}
      && twice.store.events == st.events + [Row(p).value, Row(p).value]
  {
    var once := HandleEvent(st, app, p).store;
    assert once.sessions[p.sessionId.value] == app;
  }

  /** The race between lookup and create: when another worker creates the
      same id after this task's lookup missed, this task's create fails even
      though the winner belongs to the same application. */
  lemma {:induction false} InterleavedCreateLosesRace(st: Store, app: Auth.AppId, id: Uuid, winner: Auth.AppId)
    requires !FindOwned(st, app, Some(id))
    requires CreateSession(st, id, winner).Ok?
    ensures ResolveAfterLookup(CreateSession(st, id, winner).value, app, Some(id), false) == Err(UniqueViolation("id"))
  {
  }

  /** The steps are not atomic: when the session is created but the event
      insert then fails, the task raises and the new session stays. */
  lemma {:induction false} SessionKeptWhenInsertFails(st: Store, app: Auth.AppId, p: Payload)
    requires app in st.registry.apps
    requires p.sessionId.Given? && p.sessionId.value !in st.sessions
    requires CreateEvent(CreateSession(st, p.sessionId.value, app).value, p).Err?
    ensures var r := HandleEvent(st, app, p);
      && r.failure == Some(CreateEvent(CreateSession(st, p.sessionId.value, app).value, p).failure)
      && r.store.sessions == st.sessions[p.sessionId.value := app]
      && r.store.events == st.events
  {
  }
}
