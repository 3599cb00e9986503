/** `EventSerializer`: field-by-field validation of a submitted event, in the
    declared field order session_id, category, name, data, timestamp. Every
    failing field is reported, not only the first. The session-id hook writes
    to the store while validating. */
module Serializer {
  import opened Outcomes
  import opened Schema
  import Auth

  const RequiredMessage := "This field is required."
  const NullMessage := "This field may not be null."
  const BlankMessage := "This field may not be blank."
  const NulMessage := "Null characters are not allowed."
  const FutureMessage := "Event timestamp cannot be dated in the future."

  /** The five declared fields, in declaration order. */
  datatype Key = SessionIdKey | CategoryKey | NameKey | DataKey | TimestampKey

  /** The error document: each failing field to its messages. */
  type Errors = map<Key, seq<string>>

  /** What one field's validation gives. */
  datatype FieldCheck<+T> = Accepted(value: T) | Rejected(message: string)

  /** `is_valid`: valid, invalid with its errors, or an exception that
      escaped a validation hook. */
  datatype Verdict = Valid | Invalid(errors: Errors) | Raised(failure: Failure)

  /** The store after validation, which the session hook may have written to. */
  datatype Checked = Checked(store: Store, verdict: Verdict)

  /** The value of a successful session hook. */
  datatype Hooked = Hooked(store: Store, sessionId: Uuid)

  /** The required, non-nullable check every declared field starts with. */
  function Present<T>(f: Field<T>): (r: FieldCheck<T>)
    ensures r.Accepted? <==> f.Given?
    ensures r.Accepted? ==> r.value == f.value
    ensures f.Missing? ==> r == Rejected(RequiredMessage)
    ensures f.Null? ==> r == Rejected(NullMessage)
  {
    match f
    case Missing => Rejected(RequiredMessage)
    case Null => Rejected(NullMessage)
    case Given(v) => Accepted(v)
  }

  /** Characters Python's `str.strip` removes: the whitespace of `str.isspace`. */
  predicate IsSpace(c: char) {
    || '\U{0009}' <= c <= '\U{000D}'
    || '\U{001C}' <= c <= '\U{0020}'
    || c == '\U{0085}' || c == '\U{00A0}' || c == '\U{1680}'
    || '\U{2000}' <= c <= '\U{200A}'
    || c == '\U{2028}' || c == '\U{2029}' || c == '\U{202F}' || c == '\U{205F}' || c == '\U{3000}'
  }

  /** A string that is empty once stripped. */
  predicate Blank(s: string) {
    forall i :: 0 <= i < |s| ==> IsSpace(s[i])
  }

  /** A string holding the NUL character, which every `CharField` refuses. */
  predicate HasNul(s: string) {
    exists i :: 0 <= i < |s| && s[i] == '\0'
  }

  /** The text a `CharField` accepts: not blank and free of NUL. */
  predicate GoodChars(s: string) {
    !Blank(s) && !HasNul(s)
  }

  /** A `CharField`: required, not null, not blank, then its validators,
      of which the NUL check is the one a string can fail. No length bound is
      declared on the serializer's fields. */
  function CheckChars(f: Field<string>): (r: FieldCheck<string>)
    ensures r.Accepted? <==> f.Given? && GoodChars(f.value)
    ensures f.Given? && Blank(f.value) ==> r == Rejected(BlankMessage)
    ensures f.Given? && !Blank(f.value) && HasNul(f.value) ==> r == Rejected(NulMessage)
  {
    match Present(f)
    case Rejected(m) => Rejected(m)
    case Accepted(s) =>
      if Blank(s) then Rejected(BlankMessage)
      else if HasNul(s) then Rejected(NulMessage)
      else Accepted(s)
  }

  /** `validate_timestamp`: a timestamp strictly after `now` is refused. */
  function ValidateTimestamp(t: Timestamp, now: Timestamp): (r: FieldCheck<Timestamp>)
    ensures r.Accepted? <==> t <= now
    ensures r.Accepted? ==> r.value == t
    ensures r.Rejected? ==> r.message == FutureMessage
  {
    if t > now then Rejected(FutureMessage) else Accepted(t)
  }

  /** `validate_session_id`: looks the id up under ANY application and creates
      it for `app` when absent. The id comes back unchanged. */
  function ValidateSessionId(st: Store, app: Auth.AppId, id: Uuid): (r: Result<Hooked>)
    ensures r.Ok? ==> r.value.sessionId == id
    ensures id in st.sessions ==> r == Ok(Hooked(st, id))
    ensures id !in st.sessions ==> (r.Ok? <==> app in st.registry.apps)
    ensures id !in st.sessions && r.Ok? ==>
      && r.value.store.sessions == st.sessions[id := app]
      && |r.value.store.sessions| == |st.sessions| + 1
      && r.value.store.events == st.events
      && r.value.store.registry == st.registry
    ensures r.Err? ==> r == Err(ForeignKeyViolation("application_id"))
    ensures Schema.Valid(st) && r.Ok? ==> Schema.Valid(r.value.store)
  {
    if id in st.sessions then Ok(Hooked(st, id))
    else
      var st' :- CreateSession(st, id, app);
      Ok(Hooked(st', id))
  }

  /** The messages a field check contributes: none when it accepted. */
  function Messages<T>(check: FieldCheck<T>): (m: seq<string>)
    ensures m == [] <==> check.Accepted?
  {
    match check
    case Accepted(_) => []
    case Rejected(message) => [message]
  }

  /** The session-id field: presence, then the hook, which may write. */
  function CheckSession(st: Store, app: Auth.AppId, f: Field<Uuid>): Result<(Store, FieldCheck<Uuid>)> {
    match f
    case Given(id) =>
      var h :- ValidateSessionId(st, app, id);
      Ok((h.store, Accepted(h.sessionId)))
    case _ => Ok((st, Present(f)))
  }

  /** The timestamp field: presence, then the future check. */
  function CheckTimestamp(f: Field<Timestamp>, now: Timestamp): (r: FieldCheck<Timestamp>)
    ensures r.Accepted? <==> f.Given? && f.value <= now
  {
    match Present(f)
    case Rejected(m) => Rejected(m)
    case Accepted(t) => ValidateTimestamp(t, now)
  }

  /** The messages of one field, given those of the session id. */
  function FieldMessages(sessionMessages: seq<string>, p: Payload, now: Timestamp, k: Key): seq<string> {
    match k
    case SessionIdKey => sessionMessages
    case CategoryKey => Messages(CheckChars(p.category))
    case NameKey => Messages(CheckChars(p.name))
    case DataKey => Messages(Present(p.data))
    case TimestampKey => Messages(CheckTimestamp(p.timestamp, now))
  }

  const AllKeys: set<Key> := {SessionIdKey, CategoryKey, NameKey, DataKey, TimestampKey}

  /** The error document: every field whose check rejected, with its messages. */
  function ErrorDocument(sessionMessages: seq<string>, p: Payload, now: Timestamp): (r: Errors)
    ensures forall k: Key :: k in r <==> FieldMessages(sessionMessages, p, now, k) != []
    ensures forall k :: k in r ==> r[k] == FieldMessages(sessionMessages, p, now, k)
  {
    map k | k in AllKeys && FieldMessages(sessionMessages, p, now, k) != [] :: FieldMessages(sessionMessages, p, now, k)
  }

  /** `is_valid` with `context = {"application_id": app}` at time `now`. */
  function Validate(st: Store, app: Auth.AppId, p: Payload, now: Timestamp): (r: Checked)
    ensures r.verdict.Valid? <==> Acceptable(p, now) && (p.sessionId.value in st.sessions || app in st.registry.apps)
    ensures r.verdict.Invalid? ==> r.verdict.errors != map[]
    ensures r.verdict.Raised? ==> r.store == st
  {
    match CheckSession(st, app, p.sessionId)
    case Err(f) => Checked(st, Raised(f))
    case Ok((st', sid)) =>
      var errors := ErrorDocument(Messages(sid), p, now);
      if errors == map[] then
        assert FieldMessages(Messages(sid), p, now, CategoryKey) == [];
        assert FieldMessages(Messages(sid), p, now, NameKey) == [];
        assert FieldMessages(Messages(sid), p, now, DataKey) == [];
        assert FieldMessages(Messages(sid), p, now, TimestampKey) == [];
        assert FieldMessages(Messages(sid), p, now, SessionIdKey) == [];
        Checked(st', Valid)
      else
        Checked(st', Invalid(errors))
  }

  /** The rules a payload must meet, field by field. */
  predicate Acceptable(p: Payload, now: Timestamp) {
    && p.sessionId.Given?
    && p.category.Given? && GoodChars(p.category.value)
    && p.name.Given? && GoodChars(p.name.value)
    && p.data.Given?
    && p.timestamp.Given? && p.timestamp.value <= now
  }

  /** An absent or `null` required field is reported under its own name with
      the matching message. */
  predicate ReportsAbsence<T>(errors: Errors, key: Key, f: Field<T>) {
    && (f.Missing? ==> key in errors && errors[key] == [RequiredMessage])
    && (f.Null? ==> key in errors && errors[key] == [NullMessage])
  }

  /** The hook cannot fail when the context application exists: the session
      it may create then has a valid owner. */
  lemma {:induction false} ValidationNeverRaises(st: Store, app: Auth.AppId, p: Payload, now: Timestamp)
    requires app in st.registry.apps
    ensures !Validate(st, app, p, now).verdict.Raised?
  {
  }

  /** A timestamp strictly after `now` makes the submission invalid with the
      future-dated message on `timestamp`, whatever the other fields hold. */
  lemma {:induction false} FutureTimestampRejected(st: Store, app: Auth.AppId, p: Payload, now: Timestamp)
    requires app in st.registry.apps
    requires p.timestamp.Given? && p.timestamp.value > now
    ensures var v := Validate(st, app, p, now).verdict;
      v.Invalid? && TimestampKey in v.errors && v.errors[TimestampKey] == [FutureMessage]
  {
  }

  /** A timestamp equal to or before `now` draws no timestamp error. */
  lemma {:induction false} PastOrPresentTimestampAccepted(st: Store, app: Auth.AppId, p: Payload, now: Timestamp)
    requires app in st.registry.apps
    requires p.timestamp.Given? && p.timestamp.value <= now
    ensures var v := Validate(st, app, p, now).verdict;
      v.Valid? || (v.Invalid? && TimestampKey !in v.errors)
  {
  }

  /** Every failing field is reported, each with its own message, and no
      accepted field is. */
  lemma {:induction false} ErrorsNameEveryFailingField(st: Store, app: Auth.AppId, p: Payload, now: Timestamp)
    requires app in st.registry.apps
    requires Validate(st, app, p, now).verdict.Invalid?
    ensures var errors := Validate(st, app, p, now).verdict.errors;
      && ReportsAbsence(errors, SessionIdKey, p.sessionId)
      && ReportsAbsence(errors, CategoryKey, p.category)
      && ReportsAbsence(errors, NameKey, p.name)
      && ReportsAbsence(errors, DataKey, p.data)
      && ReportsAbsence(errors, TimestampKey, p.timestamp)
      && (SessionIdKey in errors <==> !p.sessionId.Given?)
      && (CategoryKey in errors <==> !(p.category.Given? && GoodChars(p.category.value)))
      && (NameKey in errors <==> !(p.name.Given? && GoodChars(p.name.value)))
      && (DataKey in errors <==> !p.data.Given?)
      && (TimestampKey in errors <==> !(p.timestamp.Given? && p.timestamp.value <= now))
      && (p.category.Given? && Blank(p.category.value) ==> errors[CategoryKey] == [BlankMessage])
      && (p.name.Given? && Blank(p.name.value) ==> errors[NameKey] == [BlankMessage])
      && (p.category.Given? && !Blank(p.category.value) && HasNul(p.category.value) ==> errors[CategoryKey] == [NulMessage])
      && (p.name.Given? && !Blank(p.name.value) && HasNul(p.name.value) ==> errors[NameKey] == [NulMessage])
      && (p.timestamp.Given? && p.timestamp.value > now ==> errors[TimestampKey] == [FutureMessage])
  {
    var sid := CheckSession(st, app, p.sessionId).value.1;
    assert Validate(st, app, p, now).verdict.errors == ErrorDocument(Messages(sid), p, now);
  }

  /** All five fields are required: leaving any one out invalidates the
      submission with the required-field message on that field. */
  lemma {:induction false} MissingFieldInvalid(st: Store, app: Auth.AppId, p: Payload, now: Timestamp, key: Key)
    requires app in st.registry.apps
    requires key == SessionIdKey ==> p.sessionId.Missing?
    requires key == CategoryKey ==> p.category.Missing?
    requires key == NameKey ==> p.name.Missing?
    requires key == DataKey ==> p.data.Missing?
    requires key == TimestampKey ==> p.timestamp.Missing?
    ensures var v := Validate(st, app, p, now).verdict;
      v.Invalid? && key in v.errors && v.errors[key] == [RequiredMessage]
  {
    ErrorsNameEveryFailingField(st, app, p, now);
  }

  /** An id seen nowhere is created, owned by the context application, during
      validation -- even when another field makes the submission invalid. */
  lemma {:induction false} ValidationCreatesAbsentSession(st: Store, app: Auth.AppId, p: Payload, now: Timestamp)
    requires app in st.registry.apps
    requires p.sessionId.Given? && p.sessionId.value !in st.sessions
    ensures var st' := Validate(st, app, p, now).store;
      && st'.sessions == st.sessions[p.sessionId.value := app]
      && |st'.sessions| == |st.sessions| + 1
      && st'.events == st.events
      && st'.registry == st.registry
  {
  }

  /** An id that exists under ANY application creates nothing, changes no
      owner, and draws no error on `session_id`. */
  lemma {:induction false} ValidationIgnoresOwner(st: Store, app: Auth.AppId, p: Payload, now: Timestamp)
    requires p.sessionId.Given? && p.sessionId.value in st.sessions
    ensures var r := Validate(st, app, p, now);
      && r.store == st
      && |r.store.sessions| == |st.sessions|
      && (r.verdict.Valid? <==> Acceptable(p, now))
      && (r.verdict.Invalid? ==> SessionIdKey !in r.verdict.errors)
  {
  }

  /** What validation writes depends on the session id alone: two payloads
      that agree on it leave the same store, whatever their other fields and
      whatever the clock. */
  lemma {:induction false} SessionEffectDependsOnlyOnId(st: Store, app: Auth.AppId, p: Payload, q: Payload, now: Timestamp, later: Timestamp)
    requires p.sessionId == q.sessionId
    ensures Validate(st, app, p, now).store == Validate(st, app, q, later).store
  {
  }

  /** Validation keeps the database invariant and never touches events. */
  lemma {:induction false} ValidationPreservesStore(st: Store, app: Auth.AppId, p: Payload, now: Timestamp)
    requires Schema.Valid(st)
    ensures Schema.Valid(Validate(st, app, p, now).store)
    ensures Validate(st, app, p, now).store.events == st.events
    ensures Validate(st, app, p, now).store.registry == st.registry
  {
  }
}
