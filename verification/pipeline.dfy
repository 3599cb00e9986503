/** The asynchronous half: a worker consumes queued messages in order and runs
    `handle_event` on each; a raised exception fails that message only. The
    lemmas here follow one submission from the endpoint to the event table. */
module Pipeline {
  import opened Outcomes
  import opened Schema
  import Serializer
  import Tasks
  import Views
  import Auth

  /** The store after the queue is consumed, and what each message's task
      raised, if anything, one entry per message. */
  datatype Drained = Drained(store: Store, outcomes: seq<Option<Failure>>)

  /** The rows the messages whose task raised nothing insert, in queue order. */
  function Appended(queue: seq<Views.Message>, outcomes: seq<Option<Failure>>): seq<Event>
    requires |outcomes| == |queue|
    decreases |queue|
  {
    if |queue| == 0 then []
    else
      var row := Row(queue[0].payload);
      (if outcomes[0].None? && row.Some? then [row.value] else []) + Appended(queue[1..], outcomes[1..])
  }

  /** The session ids the queued payloads name. */
  function QueuedIds(queue: seq<Views.Message>): set<Uuid> {
    set i | 0 <= i < |queue| && queue[i].payload.sessionId.Given? :: queue[i].payload.sessionId.value
  }

  /** `Appended` takes the first message's row, then the rest. */
  lemma {:induction false} AppendedUnfolds(queue: seq<Views.Message>, head: Option<Failure>, tail: seq<Option<Failure>>)
    requires |queue| > 0 && |tail| == |queue| - 1
    ensures Appended(queue, [head] + tail)
      == (if head.None? && Row(queue[0].payload).Some? then [Row(queue[0].payload).value] else [])
         + Appended(queue[1..], tail)
  {
    assert ([head] + tail)[1..] == tail;
  }

  /** The ids of a non-empty queue are its head's and its tail's. */
  lemma {:induction false} QueuedIdsSplit(queue: seq<Views.Message>)
    requires |queue| > 0
    ensures QueuedIds(queue) == QueuedIds(queue[..1]) + QueuedIds(queue[1..])
  {
    forall id | id in QueuedIds(queue[1..]) ensures id in QueuedIds(queue) {
      var i :| 0 <= i < |queue[1..]| && queue[1..][i].payload.sessionId.Given? && queue[1..][i].payload.sessionId.value == id;
      assert queue[i + 1] == queue[1..][i];
    }
  }

  /** A session new after the head message and the rest was named, with its
      owner, by the head message or by some message of the rest. */
  lemma {:induction false} NewOwnersQueued(queue: seq<Views.Message>, st: Store, mid: Store, last: Store)
    requires |queue| > 0
    requires forall id :: id in st.sessions ==> id in mid.sessions && mid.sessions[id] == st.sessions[id]
    requires forall id :: id in mid.sessions ==> id in last.sessions && last.sessions[id] == mid.sessions[id]
    requires forall id :: id in mid.sessions && id !in st.sessions ==>
      queue[0].payload.sessionId == Given(id) && mid.sessions[id] == queue[0].application
    requires forall id :: id in last.sessions && id !in mid.sessions ==>
      exists i :: 0 <= i < |queue[1..]| && queue[1..][i].payload.sessionId == Given(id) && queue[1..][i].application == last.sessions[id]
    ensures forall id :: id in last.sessions && id !in st.sessions ==>
      exists i :: 0 <= i < |queue| && queue[i].payload.sessionId == Given(id) && queue[i].application == last.sessions[id]
  {
    forall id | id in last.sessions && id !in st.sessions
      ensures exists i :: 0 <= i < |queue| && queue[i].payload.sessionId == Given(id) && queue[i].application == last.sessions[id]
    {
      if id in mid.sessions {
        assert queue[0].payload.sessionId == Given(id) && queue[0].application == last.sessions[id];
      } else {
        var j :| 0 <= j < |queue[1..]| && queue[1..][j].payload.sessionId == Given(id) && queue[1..][j].application == last.sessions[id];
        assert queue[j + 1] == queue[1..][j];
      }
    }
  }

  /** Events `before` the head message, `mid` after its task, and `events`
      after the rest of the queue are the head's row, if it was inserted,
      then the rest's rows. */
  lemma {:induction false} StepEvents(queue: seq<Views.Message>, failure: Option<Failure>, tail: seq<Option<Failure>>,
                                       before: seq<Event>, mid: seq<Event>, events: seq<Event>)
    requires |queue| > 0 && |tail| == |queue| - 1
    requires mid == before + (if failure.None? && Row(queue[0].payload).Some? then [Row(queue[0].payload).value] else [])
    requires events == mid + Appended(queue[1..], tail)
    ensures events == before + Appended(queue, [failure] + tail)
  {
    AppendedUnfolds(queue, failure, tail);
    var row := Row(queue[0].payload);
    var head := if failure.None? && row.Some? then [row.value] else [];
    assert events == before + head + Appended(queue[1..], tail);
  }

  /** The rows the head message's task inserts, `head`: its row if it
      raised nothing, otherwise none. */
  lemma {:induction false} StepRow(st: Store, m: Views.Message, step: Tasks.Step, head: seq<Event>)
    requires step == Tasks.HandleEvent(st, m.application, m.payload)
    requires head == (if step.failure.None? && Row(m.payload).Some? then [Row(m.payload).value] else [])
    ensures step.store.events == st.events + head
  {
    if step.failure.Some? {
      assert step.store.events == step.store.events[..|st.events|];
    }
  }

  /** A message whose task raised nothing had a complete row, for the head
      message as for the rest. */
  lemma {:induction false} StepRows(st: Store, queue: seq<Views.Message>, step: Tasks.Step, tail: seq<Option<Failure>>)
    requires |queue| > 0 && |tail| == |queue| - 1
    requires step == Tasks.HandleEvent(st, queue[0].application, queue[0].payload)
    requires forall i :: 0 <= i < |tail| && tail[i].None? ==> Row(queue[1..][i].payload).Some?
    ensures forall i :: 0 <= i < |queue| && ([step.failure] + tail)[i].None? ==> Row(queue[i].payload).Some?
  {
    var outcomes := [step.failure] + tail;
    forall i | 0 <= i < |queue| && outcomes[i].None? ensures Row(queue[i].payload).Some? {
      if i > 0 {
        assert outcomes[i] == tail[i - 1];
        assert queue[i] == queue[1..][i - 1];
      }
    }
  }

  /** Every session after the head message's task and the rest of the queue
      existed before or is named by a queued payload. */
  lemma {:induction false} StepKeys(st: Store, queue: seq<Views.Message>, step: Tasks.Step, keys: set<Uuid>)
    requires |queue| > 0
    requires step == Tasks.HandleEvent(st, queue[0].application, queue[0].payload)
    requires keys <= step.store.sessions.Keys + QueuedIds(queue[1..])
    ensures keys <= st.sessions.Keys + QueuedIds(queue)
  {
    QueuedIdsSplit(queue);
    forall id | id in step.store.sessions && id !in st.sessions ensures id in QueuedIds(queue[..1]) {
      assert queue[..1][0] == queue[0];
    }
  }

  /** Consumes `queue` front to back. */
  function Drain(st: Store, queue: seq<Views.Message>): (r: Drained)
    ensures |r.outcomes| == |queue|
    ensures forall i :: 0 <= i < |queue| && r.outcomes[i].None? ==> Row(queue[i].payload).Some?
    ensures r.store.events == st.events + Appended(queue, r.outcomes)
    ensures forall id :: id in st.sessions ==> id in r.store.sessions && r.store.sessions[id] == st.sessions[id]
    ensures r.store.sessions.Keys <= st.sessions.Keys + QueuedIds(queue)
    ensures forall id :: id in r.store.sessions && id !in st.sessions ==>
      exists i :: 0 <= i < |queue| && queue[i].payload.sessionId == Given(id) && queue[i].application == r.store.sessions[id]
    ensures r.store.registry == st.registry
    ensures Valid(st) ==> Valid(r.store)
    decreases |queue|
  {
    if |queue| == 0 then Drained(st, [])
    else
      var step := Tasks.HandleEvent(st, queue[0].application, queue[0].payload);
      var rest := Drain(step.store, queue[1..]);
      StepRows(st, queue, step, rest.outcomes);
      var row := Row(queue[0].payload);
      StepRow(st, queue[0], step, if step.failure.None? && row.Some? then [row.value] else []);
      StepEvents(queue, step.failure, rest.outcomes, st.events, step.store.events, rest.store.events);
      StepKeys(st, queue, step, rest.store.sessions.Keys);
      NewOwnersQueued(queue, st, step.store, rest.store);
      Drained(rest.store, [step.failure] + rest.outcomes)
  }

  /** Concatenation is associative on queues: the step the proof of
      `DrainSplit` needs at each message. */
  lemma {:induction false} QueueTail(a: seq<Views.Message>, b: seq<Views.Message>)
    requires |a| > 0
    ensures (a + b)[0] == a[0]
    ensures (a + b)[1..] == a[1..] + b
  {
  }

  /** Draining `a + b` is draining `a`, then draining `b` from the store `a`
      leaves; the outcomes are those of `a` followed by those of `b`. */
  lemma {:induction false} DrainSplit(st: Store, a: seq<Views.Message>, b: seq<Views.Message>)
    ensures var first := Drain(st, a);
      var second := Drain(first.store, b);
      Drain(st, a + b) == Drained(second.store, first.outcomes + second.outcomes)
    decreases |a|
  {
    if |a| == 0 {
      assert a + b == b;
    } else {
      QueueTail(a, b);
      var step := Tasks.HandleEvent(st, a[0].application, a[0].payload);
      DrainSplit(step.store, a[1..], b);
      var first := Drain(step.store, a[1..]);
      var second := Drain(first.store, b);
      assert [step.failure] + (first.outcomes + second.outcomes) == ([step.failure] + first.outcomes) + second.outcomes;
    }
  }

  /** The outcome of message `i` is what `handle_event` raises on the store
      the messages before it leave. */
  lemma {:induction false} DrainOutcome(st: Store, queue: seq<Views.Message>, i: nat)
    requires i < |queue|
    ensures Drain(st, queue).outcomes[i]
      == Tasks.HandleEvent(Drain(st, queue[..i]).store, queue[i].application, queue[i].payload).failure
  {
    assert queue == queue[..i] + queue[i..];
    DrainSplit(st, queue[..i], queue[i..]);
    var before := Drain(st, queue[..i]);
    assert queue[i..][0] == queue[i];
    assert |before.outcomes| == i;
  }

  /** A well-formed submission accepted from `app`, for a session that is new
      or already `app`'s, ends as exactly one new event holding the submitted
      values, in a session owned by `app`. */
  lemma {:induction false} AcceptedSubmissionPersisted(st: Store, app: Auth.AppId, body: Payload, now: Timestamp)
    requires Valid(st) && app in st.registry.apps
    requires Serializer.Acceptable(body, now)
    requires body.unknownKeys == {}
    requires |body.category.value| <= MaxLength && |body.name.value| <= MaxLength
    requires body.sessionId.value in st.sessions ==> st.sessions[body.sessionId.value] == app
    ensures var ex := Views.Post(st, [], Some(app), body, now);
      var done := Drain(ex.store, ex.queue);
      && ex.response.Status() == 204
      && ex.queue == [Views.Message(app, body)]
      && done.outcomes == [None]
      && done.store.sessions[body.sessionId.value] == app
      && done.store.events == st.events
           + [Event(body.sessionId.value, body.category.value, body.name.value, body.data.value, body.timestamp.value)]
  {
    var ex := Views.Post(st, [], Some(app), body, now);
    assert ex.store.sessions[body.sessionId.value] == app;
    var step := Tasks.HandleEvent(ex.store, app, body);
    assert step.failure.None?;
    assert Drain(ex.store, ex.queue) == Drained(step.store, [None]) by {
      assert ex.queue[1..] == [];
    }
  }

  /** The validator and the task disagree on foreign sessions: an id owned by
      another application passes validation (204, enqueued), but the task's
      owner-scoped lookup misses, its create hits the primary key, and no
      event is ever stored. */
  lemma {:induction false} ForeignSessionAcceptedButDropped(st: Store, app: Auth.AppId, body: Payload, now: Timestamp)
    requires Serializer.Acceptable(body, now)
    requires body.sessionId.value in st.sessions && st.sessions[body.sessionId.value] != app
    ensures var ex := Views.Post(st, [], Some(app), body, now);
      var done := Drain(ex.store, ex.queue);
      && ex.response.Status() == 204
      && ex.store == st
      && done.outcomes == [Some(UniqueViolation("id"))]
      && done.store == st
  {
    var ex := Views.Post(st, [], Some(app), body, now);
    assert ex.queue[1..] == [];
    assert Drain(ex.store, ex.queue[1..]) == Drained(st, []);
  }

  /** The serializer sets no length bound, so an over-long category is
      accepted (204) and fails only at the insert: the session created while
      validating stays, the event never appears. */
  lemma {:induction false} OverlongCategoryAcceptedButDropped(st: Store, app: Auth.AppId, body: Payload, now: Timestamp)
    requires app in st.registry.apps
    requires Serializer.Acceptable(body, now)
    requires body.sessionId.value !in st.sessions
    requires body.unknownKeys == {}
    requires |body.category.value| > MaxLength
    ensures var ex := Views.Post(st, [], Some(app), body, now);
      var done := Drain(ex.store, ex.queue);
      && ex.response.Status() == 204
      && done.outcomes == [Some(ValueTooLong("category"))]
      && done.store.events == st.events
      && done.store.sessions == st.sessions[body.sessionId.value := app]
  {
    var ex := Views.Post(st, [], Some(app), body, now);
    assert ex.queue[1..] == [];
  }

  /** Keys beyond the five declared fields are ignored by the serializer but
      passed on to the model constructor, which refuses them: 204, then no
      event. */
  lemma {:induction false} UnknownKeysAcceptedButDropped(st: Store, app: Auth.AppId, body: Payload, now: Timestamp)
    requires app in st.registry.apps
    requires Serializer.Acceptable(body, now)
    requires body.unknownKeys != {}
    requires body.sessionId.value in st.sessions ==> st.sessions[body.sessionId.value] == app
    ensures var ex := Views.Post(st, [], Some(app), body, now);
      var done := Drain(ex.store, ex.queue);
      && ex.response.Status() == 204
      && done.outcomes == [Some(UnexpectedKeyword(body.unknownKeys))]
      && done.store.events == st.events
  {
    var ex := Views.Post(st, [], Some(app), body, now);
    assert ex.store.sessions[body.sessionId.value] == app;
    var step := Tasks.HandleEvent(ex.store, app, body);
    assert step == Tasks.Step(ex.store, Some(UnexpectedKeyword(body.unknownKeys)));
    assert ex.queue[1..] == [];
  }

  /** A future-dated submission is answered 400 and enqueues nothing, yet the
      session hook has already created its session. */
  lemma {:induction false} RejectedSubmissionStillCreatesSession(st: Store, app: Auth.AppId, body: Payload, now: Timestamp)
    requires app in st.registry.apps
    requires body.sessionId.Given? && body.sessionId.value !in st.sessions
    requires body.timestamp.Given? && body.timestamp.value > now
    ensures var ex := Views.Post(st, [], Some(app), body, now);
      && ex.response.Status() == 400
      && ex.response.errors[Serializer.TimestampKey] == [Serializer.FutureMessage]
      && ex.queue == []
      && ex.store.events == st.events
      && ex.store.sessions == st.sessions[body.sessionId.value := app]
  {
    Serializer.FutureTimestampRejected(st, app, body, now);
  }

  /** The identifier e2085be5-9137-4e4e-80b5-f1ffddc25423 as a number. */
  const ScenarioSession: Uuid := 0xe2085be5_9137_4e4e_80b5_f1ffddc25423

  /** The body of the endpoint tests: a "cta click" in "page interaction". */
  function ScenarioBody(data: Field<Data>, t: Timestamp): Payload {
    Payload(Given(ScenarioSession), Given("page interaction"), Given("cta click"), data, Given(t), {})
  }

  /** The category and name of the test body are acceptable text. */
  lemma {:induction false} ScenarioTextsAccepted()
    ensures Serializer.GoodChars("page interaction") && Serializer.GoodChars("cta click")
  {
    assert !Serializer.IsSpace("page interaction"[0]);
    assert !Serializer.IsSpace("cta click"[0]);
    assert forall i :: 0 <= i < |"page interaction"| ==> "page interaction"[i] != '\0';
    assert forall i :: 0 <= i < |"cta click"| ==> "cta click"[i] != '\0';
  }

  /** A store holding only the calling application. */
  function ScenarioStore(app: Auth.Application): Store {
    Store(Auth.Registry(map[app.id := app], app.id + 1), map[], [])
  }

  /** The endpoint test that leaves out `data`: 400, and the error document
      names `data` alone. */
  lemma {:induction false} ScenarioMissingData(app: Auth.Application, t: Timestamp, now: Timestamp)
    requires t <= now
    ensures var bad := Views.Post(ScenarioStore(app), [], Some(app.id), ScenarioBody(Missing, t), now);
      && bad.response.Status() == 400
      && bad.response.errors.Keys == {Serializer.DataKey}
  {
    var st := ScenarioStore(app);
    var body := ScenarioBody(Missing, t);
    ScenarioTextsAccepted();
    Serializer.MissingFieldInvalid(st, app.id, body, now, Serializer.DataKey);
    Serializer.ErrorsNameEveryFailingField(st, app.id, body, now);
    var errors := Serializer.Validate(st, app.id, body, now).verdict.errors;
    assert errors.Keys == {Serializer.DataKey} by {
      forall k: Serializer.Key ensures k in errors <==> k == Serializer.DataKey {
        match k
        case SessionIdKey =>
        case CategoryKey =>
        case NameKey =>
        case DataKey =>
        case TimestampKey =>
      }
    }
  }

  /** The endpoint test with the full body: 204, and the worker then stores
      one session owned by the caller and one event with the given values. */
  lemma {:induction false} ScenarioValidPost(app: Auth.Application, data: Data, t: Timestamp, now: Timestamp)
    requires 0 < |app.name| <= Auth.NameMaxLength
    requires t <= now
    ensures var good := Views.Post(ScenarioStore(app), [], Some(app.id), ScenarioBody(Given(data), t), now);
      var done := Drain(good.store, good.queue);
      && good.response.Status() == 204
      && done.store.sessions == map[ScenarioSession := app.id]
      && done.store.events == [Event(ScenarioSession, "page interaction", "cta click", data, t)]
  {
    var st := ScenarioStore(app);
    assert Valid(st);
    var body := ScenarioBody(Given(data), t);
    ScenarioTextsAccepted();
    assert Serializer.Acceptable(body, now);
    AcceptedSubmissionPersisted(st, app.id, body, now);
  }
}
