/** The `Session` and `Event` tables, the store that holds them together with
    the application table, and the two inserts the ingestion path performs:
    `Session.objects.create` and `Event.objects.create(**payload)`. */
module Schema {
  import opened Outcomes
  import Auth

  /** A session identifier: the 128-bit value of a UUID. Databases compare
      UUIDs bytewise, which is the order of this number. */
  type Uuid = nat

  /** A point in time, as a count of microseconds on one absolute clock. */
  type Timestamp = int

  /** The JSON `data` object, its values kept as opaque serialized text. */
  type Data = map<string, string>

  /** Width of the `category` and `name` columns. */
  const MaxLength := 100

  /** One key of a submitted JSON object: absent, explicitly `null`, or given. */
  datatype Field<+T> = Missing | Null | Given(value: T)

  /** A submitted event as the request body carries it, and as it travels
      through the work queue unchanged. `unknownKeys` are the body's keys other
      than the five below. */
  datatype Payload = Payload(
    sessionId: Field<Uuid>,
    category: Field<string>,
    name: Field<string>,
    data: Field<Data>,
    timestamp: Field<Timestamp>,
    unknownKeys: set<string>)

  /** An `Event` row. The surrogate primary key is not modelled. */
  datatype Event = Event(session: Uuid, category: string, name: string, data: Data, timestamp: Timestamp) {
    /** `Event.__str__`. */
    function ToString(): string { "Event " + category + " - " + name }
  }

  /** The database: applications, sessions keyed by their primary key with
      their owning application, and the event rows in insertion order. */
  datatype Store = Store(registry: Auth.Registry, sessions: map<Uuid, Auth.AppId>, events: seq<Event>)

  /** What a stored event row satisfies: its session exists and its strings
      fit their columns. */
  predicate Storable(e: Event, sessions: map<Uuid, Auth.AppId>) {
    e.session in sessions && |e.category| <= MaxLength && |e.name| <= MaxLength
  }

  /** Database invariant: a valid application table, every session owned by
      an existing application, every event storable. One owner per session id
      is built into the map. */
  ghost predicate Valid(st: Store) {
    && Auth.Valid(st.registry)
    && (forall id :: id in st.sessions ==> st.sessions[id] in st.registry.apps)
    && (forall i :: 0 <= i < |st.events| ==> Storable(st.events[i], st.sessions))
  }

  /** `Session.objects.create(id=id, application_id=app)`: the primary key
      refuses an id that already exists under ANY application; the foreign key
      refuses an unknown application. */
  function CreateSession(st: Store, id: Uuid, app: Auth.AppId): (r: Result<Store>)
    ensures id in st.sessions ==> r == Err(UniqueViolation("id"))
    ensures r.Ok? <==> id !in st.sessions && app in st.registry.apps
    ensures r.Err? ==> r.failure in {UniqueViolation("id"), ForeignKeyViolation("application_id")}
    ensures r.Ok? ==>
      && r.value.sessions.Keys == st.sessions.Keys + {id}
      && |r.value.sessions| == |st.sessions| + 1
      && r.value.sessions[id] == app
      && (forall k :: k in st.sessions ==> r.value.sessions[k] == st.sessions[k])
      && r.value.events == st.events
      && r.value.registry == st.registry
    ensures Valid(st) && r.Ok? ==> Valid(r.value)
  {
    if id in st.sessions then Err(UniqueViolation("id"))
    else if app !in st.registry.apps then Err(ForeignKeyViolation("application_id"))
    else
      var st' := st.(sessions := st.sessions[id := app]);
      Ok(st')
  }

  /** The column value a keyword argument gives: its value, the column's
      default when the key is absent, and no value for `null` (every column
      is NOT NULL). */
  function Column<T>(f: Field<T>, default: Option<T>): Option<T> {
    match f
    case Given(v) => Some(v)
    case Null => None
    case Missing => default
  }

  /** The row `Event(**payload)` would insert, if every column has a value:
      `category` and `name` default to the empty string and `data` to the
      empty object; `session_id` and `timestamp` have no default. */
  function Row(p: Payload): (r: Option<Event>)
    ensures r.Some? <==>
      && p.sessionId.Given? && p.timestamp.Given?
      && !p.category.Null? && !p.name.Null? && !p.data.Null?
    ensures r.Some? ==>
      && r.value.session == p.sessionId.value
      && r.value.timestamp == p.timestamp.value
      && r.value.category == (if p.category.Given? then p.category.value else "")
      && r.value.name == (if p.name.Given? then p.name.value else "")
      && r.value.data == (if p.data.Given? then p.data.value else map[])
  {
    match (Column(p.sessionId, None), Column(p.category, Some("")), Column(p.name, Some("")),
           Column(p.data, Some(map[])), Column(p.timestamp, None))
    case (Some(s), Some(c), Some(n), Some(d), Some(t)) => Some(Event(s, c, n, d, t))
    case _ => None
  }

  /** Whether a given string is too long for its column. */
  predicate TooLong(f: Field<string>) {
    f.Given? && |f.value| > MaxLength
  }

  /** `Event.objects.create(**payload)`. Unknown keywords make the model
      constructor raise before anything is written; then the insert fails on
      an over-long string, on a NULL column, or on a session that does not
      exist. When several of these hold, the model reports the first in that
      order. On success exactly one row is appended. */
  function CreateEvent(st: Store, p: Payload): (r: Result<Store>)
    ensures r.Ok? <==>
      && p.unknownKeys == {}
      && !TooLong(p.category) && !TooLong(p.name)
      && Row(p).Some? && Row(p).value.session in st.sessions
    ensures p.unknownKeys != {} ==> r == Err(UnexpectedKeyword(p.unknownKeys))
    ensures r.Ok? ==>
      && r.value.events == st.events + [Row(p).value]
      && r.value.sessions == st.sessions
      && r.value.registry == st.registry
    ensures Valid(st) && r.Ok? ==> Valid(r.value)
  {
    if p.unknownKeys != {} then Err(UnexpectedKeyword(p.unknownKeys))
    else if TooLong(p.category) then Err(ValueTooLong("category"))
    else if TooLong(p.name) then Err(ValueTooLong("name"))
    else match Row(p)
      case None => Err(NotNullViolation(FirstNullColumn(p)))
      case Some(e) =>
        if e.session !in st.sessions then Err(ForeignKeyViolation("session_id"))
        else
          var st' := st.(events := st.events + [e]);
          assert Storable(st'.events[|st.events|], st'.sessions);
          Ok(st')
  }

  /** Name of the first column, in declaration order, left without a value. */
  function FirstNullColumn(p: Payload): string {
    if !p.sessionId.Given? then "session_id"
    else if p.category.Null? then "category"
    else if p.name.Null? then "name"
    else if p.data.Null? then "data"
    else "timestamp"
  }

  /** A payload without `data` stores the empty object, and otherwise the
      row is exactly the payload's five values. */
  lemma {:induction false} DataDefaultsToEmpty(st: Store, p: Payload)
    requires p.data == Missing
    requires CreateEvent(st, p).Ok?
    ensures CreateEvent(st, p).value.events[|st.events|].data == map[]
  {
  }

  /** Two sessions with one id never coexist: once an id is stored, creating
      it again fails for the same application and for any other. */
  lemma {:induction false} SessionIdUniqueAcrossTenants(st: Store, id: Uuid, owner: Auth.AppId, other: Auth.AppId)
    requires CreateSession(st, id, owner).Ok?
    ensures CreateSession(CreateSession(st, id, owner).value, id, other) == Err(UniqueViolation("id"))
  {
  }

  /** `Event.__str__` is "Event {category} - {name}". This only documents the
      definition of `ToString`, which is the one-line format itself. */
  lemma {:induction false} EventString(e: Event)
    ensures e.ToString() == "Event " + e.category + " - " + e.name
  {
  }
}
