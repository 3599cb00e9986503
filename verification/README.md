# Event ingestion of a multi-tenant analytics API, in Dafny

This project models the event-ingestion path of a small Django / REST
framework / Celery service. Client applications (tenants) post analytics
events. Each event has a session id, a category, a name, a JSON `data` object
and a timestamp. The model follows one event from the HTTP endpoint, through
the serializer and the work queue, into the session and event tables.
Everything is a pure function over an immutable `Store`. The store holds:

- the application table (`Auth.Registry`);
- the session table, a map from session id to owning application id;
- the event rows, a sequence in insertion order.

Modules follow the source files:

- `Outcomes` (`outcomes.dfy`): `Option`, `Result`, and `Failure`, the
  exceptions the code lets escape (integrity and data errors, the model
  constructor's keyword error, `ValueError`).
- `Auth` (`auth.dfy`): `events/models/auth.py`. It covers `Application`,
  `create_user` and `create_superuser`.
- `Schema` (`schema.dfy`): `events/models/events.py`. It covers the
  `Session` and `Event` tables, the database invariant, and the two inserts
  the path performs.
- `Ordering` (`ordering.dfy`): the `(session, timestamp)` ordering of event
  rows, as a stable insertion sort.
- `Serializer` (`serializer.dfy`): `EventSerializer`. Field checks run in
  declared order and every failing field is reported. It includes the
  session-id hook that writes to the store.
- `Tasks` (`tasks.dfy`): `handle_event`. The lookup and the create are
  separate steps, so a competing create can be placed between them.
- `Views` (`views.dfy`): `EventsView.get` and `EventsView.post`.
- `Pipeline` (`pipeline.dfy`): a worker draining the queue in order, and
  end-to-end lemmas from POST to stored row.

Timestamps are integers, and "now" is a parameter. Session ids are the
numeric value of the UUID. `data` is a map whose values are opaque JSON text.
Authentication is an `Option<AppId>`. Query-string parsing is done by parser
functions passed as parameters.

## Behaviour the code has

The model follows the code as written, including in these places:

- The serializer writes during validation. `validate_session_id` creates an
  absent session for the caller whenever the session id is present. This
  happens even when another field makes the submission invalid
  (`Pipeline.RejectedSubmissionStillCreatesSession`).
- The validator's session lookup ignores the owner. The task's lookup filters
  on it. A session id owned by another tenant is therefore answered 204 and
  then dropped: the task's create hits the primary key
  (`Pipeline.ForeignSessionAcceptedButDropped`).
- The serializer declares `category` and `name` without `max_length`. The
  100-character bound is enforced only by the column at insert time, after
  the 204 (`Pipeline.OverlongCategoryAcceptedButDropped`).
- Keys outside the five fields are ignored by the serializer. They are passed
  on to `Event(**payload)`, which refuses them
  (`Pipeline.UnknownKeysAcceptedButDropped`).
- `handle_event` uses a plain fetch-then-create. A same-tenant create that
  lands between its lookup and its create makes it fail
  (`Tasks.InterleavedCreateLosesRace`).
- The current models declare no future-timestamp constraint, so the task
  stores any timestamp.
- `get` is not scoped to the caller: every tenant sees every event
  (`Views.GetIgnoresCaller`).
- Nothing deduplicates events: running the task twice stores two rows
  (`Tasks.NoDeduplication`).

## Model

| member | source | states |
|---|---|---|
| `Auth.CreateUser` | events/models/auth.py:9-20 | An empty name raises `ValueError` "Application must have a name". A taken or over-long name fails at the insert. Otherwise exactly one new row is added: active, not admin, with that name, all other rows unchanged. The table invariant (unique non-empty names) is kept. |
| `Auth.CreateSuperuser` | events/models/auth.py:22-31 | Succeeds exactly when `create_user` would, and fails the same way otherwise. The single new row has `is_admin` set and is active. The invariant is kept. |
| `Auth.DuplicateNameRejected` | events/models/auth.py:35 | After an application is created, both managers refuse a second one with the same name (unique violation). |
| `Auth.CreatedFlags` | events/models/auth.py:36-55 | A `create_user` row is active and not staff. A `create_superuser` row is active and staff. Both hold every permission and print as their name. |
| `Auth.ApplicationAnswers` | events/models/auth.py:44-55 | For any application, `is_staff` equals `is_admin`, `has_perm` and `has_module_perms` grant, and `__str__` is the name. |
| `Schema.CreateSession` | events/models/events.py:8-13 | An id already stored under any application is refused by the primary key. An unknown owner is refused by the foreign key. Otherwise exactly one session is added with that owner, and nothing else changes. |
| `Schema.SessionIdUniqueAcrossTenants` | events/models/events.py:9 | Once an id exists, creating it again fails for the same application and for a different one. |
| `Schema.Row` | events/models/events.py:16-21 | The row `Event(**payload)` builds exists exactly when `session_id` and `timestamp` are given and no field is null. Missing `category`/`name` become "" and a missing `data` becomes `{}`. |
| `Schema.CreateEvent` | events/models/events.py:16-21 | Unknown keywords raise first. The insert succeeds exactly when the strings fit 100 characters, no column is null and the session exists. On success exactly one row is appended and sessions are untouched. |
| `Schema.DataDefaultsToEmpty` | events/models/events.py:20 | An event created without `data` stores the empty object. |
| `Schema.EventString` | events/models/events.py:32-33 | `__str__` is "Event {category} - {name}". |
| `Ordering.PrecedesTotalPreorder` | events/models/events.py:30 | The `(session, timestamp)` order is total and transitive. |
| `Ordering.Insert` | events/models/events.py:30 | Inserting into a sorted list gives a sorted list with the same rows plus the new one. |
| `Ordering.Sort` | events/models/events.py:30 | The result is ascending by `(session, timestamp)` and is a permutation of the input. |
| `Serializer.Present` | events/serializers.py:9-13 | A declared field is accepted only when given. A missing one draws "This field is required." and a null one "This field may not be null." |
| `Serializer.CheckChars` | events/serializers.py:10-11 | A char field is accepted exactly when it is given, not blank (empty once Python's whitespace is stripped) and free of NUL. A blank one draws "This field may not be blank."; a non-blank one holding NUL draws "Null characters are not allowed." |
| `Serializer.ValidateTimestamp` | events/serializers.py:37-43 | Accepted, and returned unchanged, exactly when `t <= now`. Otherwise it is rejected with "Event timestamp cannot be dated in the future." |
| `Serializer.ValidateSessionId` | events/serializers.py:25-35 | Returns the id unchanged. An id present under any owner leaves the store as it was. An absent id is created for the context application, adding one session and nothing else. |
| `Serializer.Validate` | events/serializers.py:7-43 | Valid exactly when every field passes its rule: the five fields given, category and name neither blank nor holding NUL, the timestamp not after `now`, and the session hook able to run. An invalid result carries a non-empty error document. A raised failure leaves the store unchanged. |
| `Serializer.ValidationNeverRaises` | events/serializers.py:25-33 | When the context application exists, validation ends as valid or invalid and never raises. |
| `Serializer.FutureTimestampRejected` | events/serializers.py:37-41 | A timestamp after `now` makes the submission invalid with the future-dated message on `timestamp`. |
| `Serializer.PastOrPresentTimestampAccepted` | events/serializers.py:38-43 | A timestamp at or before `now` never draws a `timestamp` error. |
| `Serializer.ErrorsNameEveryFailingField` | events/serializers.py:9-13 | The error document has an entry for a field exactly when that field fails. Each entry holds the field's own message (required, null, blank, NUL, future). |
| `Serializer.MissingFieldInvalid` | events/serializers.py:9-13 | Leaving out any one of the five fields, `data` included, invalidates the submission with "This field is required." on that field. |
| `Serializer.ValidationCreatesAbsentSession` | events/serializers.py:26-33 | An id stored nowhere is created with the caller as owner, adding exactly one session, whatever the other fields hold. |
| `Serializer.ValidationIgnoresOwner` | events/serializers.py:26-35 | An id stored under any application, another tenant's included, creates nothing and changes no owner. It draws no session-id error, and validity depends on the other fields only. |
| `Serializer.SessionEffectDependsOnlyOnId` | events/serializers.py:25-35 | Two payloads with the same session id leave the same store, whatever the other fields and the clock. |
| `Serializer.ValidationPreservesStore` | events/serializers.py:25-33 | Validation keeps the database invariant and never changes events or applications. |
| `Tasks.ResolveAfterLookup` | events/tasks.py:7-16 | After a hit nothing is written. After a miss with no id it fails as a null primary key. After a miss with an id it succeeds exactly when the id is stored under no application and the caller exists; an id stored under any owner fails on the primary key. On success the one new session is owned by the caller and nothing else changes; the database invariant is kept. |
| `Tasks.HandleEvent` | events/tasks.py:6-20 | Succeeds exactly when the id is given, is new or owned by the caller, and the row is insertable. It then appends exactly the payload's row. Earlier events and existing owners never change; the only session it can add is the payload's id, owned by the caller; the database invariant is kept. |
| `Tasks.SessionKeptWhenInsertFails` | events/tasks.py:12-20 | When the session is created and the event insert then fails, the task raises that insert's failure, the new session stays and no event is added. |
| `Tasks.ExistingOwnedSessionReused` | events/tasks.py:7-16 | When the caller already owns the session, no session is created. |
| `Tasks.AbsentSessionCreatedThenEventAppended` | events/tasks.py:12-20 | A new id is created for the caller, then one event with the payload's five values is appended. |
| `Tasks.ForeignSessionFails` | events/tasks.py:7-16 | When another application owns the id, the task fails with a primary-key violation and changes nothing. |
| `Tasks.NoDeduplication` | events/tasks.py:6-20 | Running the task twice on one payload stores two identical events and one session. |
| `Tasks.InterleavedCreateLosesRace` | events/tasks.py:7-16 | If another worker creates the id between this task's lookup and its create, the create fails, even when both belong to the same application. |
| `Views.BuildLookups` | events/views.py:33-46 | Each lookup is present exactly when its query parameter is present and non-empty, and carries that parameter's parsed value. |
| `Views.Filter` | events/views.py:48 | Keeps exactly the rows that satisfy every active lookup, each as often as it is stored. |
| `Views.Get` | events/views.py:32-52 | Unauthenticated calls get 401. Otherwise the result is 200 with rows sorted by `(session, timestamp)`, containing exactly the stored rows that match every lookup. |
| `Views.Post` | events/views.py:54-66 | Unauthenticated calls get 401 and change nothing. A valid body is enqueued once, verbatim, with the caller's id, and answered 204. An invalid one is answered 400 with the serializer's errors and nothing is enqueued. |
| `Views.NoParamsListsEverything` | events/views.py:48-52 | With no query parameters the answer is 200 and lists every stored event. |
| `Views.GetListsExactlyMatching` | events/views.py:48-52 | Each row is listed as many times as it is stored if it matches, and not at all otherwise. |
| `Views.TimeBoundsSemantics` | events/views.py:42-46 | `timestamp_before` is exclusive (`<`) and `timestamp_after` inclusive (`>=`). |
| `Views.EmptyParamsIgnored` | events/views.py:36-46 | Adding query parameters with empty values changes no lookup. |
| `Views.GetIgnoresCaller` | events/views.py:32-52 | Every authenticated application gets the same listing. |
| `Views.UnauthenticatedRefused` | events/views.py:16-17 | Without credentials both GET and POST answer 401 and change neither the store nor the queue. |
| `Pipeline.Drain` | events/tasks.py:5-20 | Gives one outcome per message. The events become the earlier events followed by the rows of the messages that raised nothing, in queue order. Existing owners never change; every new session is one a queued message names, owned by that message's application; the database invariant is kept. |
| `Pipeline.DrainSplit` | events/tasks.py:5-20 | Consuming two queues one after the other is consuming their concatenation: the final store is the same and the outcomes are concatenated. |
| `Pipeline.DrainOutcome` | events/tasks.py:6-20 | Each message's outcome is exactly what `handle_event` raises, or not, on the store the messages before it leave. |
| `Pipeline.AcceptedSubmissionPersisted` | events/views.py:54-64 | An accepted, storable submission for a new or own session ends as exactly one new event with the submitted values, in a session owned by the caller. |
| `Pipeline.ForeignSessionAcceptedButDropped` | events/serializers.py:26-35 | Another tenant's session id is answered 204, then the task fails with a primary-key violation and the store is unchanged. |
| `Pipeline.OverlongCategoryAcceptedButDropped` | events/serializers.py:10-11 | A category over 100 characters is answered 204. The insert then fails, keeping the session made during validation and storing no event. |
| `Pipeline.UnknownKeysAcceptedButDropped` | events/tasks.py:18-20 | Extra body keys are answered 204. The model constructor then refuses them and no event is stored. |
| `Pipeline.RejectedSubmissionStillCreatesSession` | events/serializers.py:25-41 | A future-dated submission is answered 400 with the future message and enqueues nothing, but its new session has been created. |
| `Pipeline.ScenarioMissingData` | events/tests/test_views.py:49-63 | The endpoint test body without `data` gets 400, with `data` as the only failing field. |
| `Pipeline.ScenarioValidPost` | events/tests/test_views.py:73-93 | The endpoint test body gets 204. The worker then leaves one session owned by the caller and one event with the given values. |

## Left out

- Parsing is outside the model: UUID text, ISO-8601 datetimes, JSON bodies, and the `str()` coercion of non-string char fields. Values arrive parsed. Invalid query-parameter text, which makes `get` raise, is not modelled either.
- Token authentication, password hashing (`set_password`), and the refusal of inactive accounts. The caller is an optional application id.
- Real clocks and time zones: "now" is an integer parameter.
- `data` is modelled as a JSON object with opaque values. Other JSON values the field also accepts are not modelled.
- Serializer.CheckChars: the surrogate-character validator of a char field is not modelled, because a Dafny string cannot hold a lone surrogate.
- The trimmed values the serializer would return are not modelled, because the view enqueues the raw body.
- When an insert breaks several constraints at once, the model names one in a fixed order. Which one the database reports is not modelled.
- Auto-increment gaps left by failed inserts, and the event table's surrogate key.
- Body keys that `Event(**payload)` would also accept (`id`, `pk`, `session`) are treated like any unknown key.
- Celery retries, result backends, and parallel workers. The worker is sequential. The one interleaving modelled is a create between `handle_event`'s lookup and its create.
- Transactions and cascade deletion. Every write is autocommitted.
- The serializer used without an `application_id` in its context, and `serializer.save()`.
- Applications created directly with `Application.objects.create`, which bypasses the empty-name check.
- The historical check constraint of migration 0003, which compares against a fixed 2022 date. The current models declare no such constraint.
- The admin forms, the invoke/Docker tasks, the Celery and server configuration, and the settings files. They hold no ingestion logic.
- Rendering the listed events to JSON.
