/**
  What the webhook register of a delivery shows: the newest of the mapped events that were first
  registered after the delivery got its message, and nothing of those that were registered before.
*/
module EmailRegister {
  import opened Common
  import opened Email
  import opened EmailCalls

  // ---------------------------------------------------------------- a run is its first hooks, applied in order

  /** No call for `key` is in flight. */
  ghost predicate Quiet(s: Db, key: Id) {
    forall c :: c in s.calls ==> s.calls[c].key != key
  }

  /** The events of a run when they are first registered, in order of arrival. */
  function FirstHooks(seen: set<Id>, events: seq<Event>): seq<Hook>
    decreases |events|
  {
    if events == [] then []
    else if events[0].Webhook? && events[0].hook.id !in seen then
      [events[0].hook] + FirstHooks(seen + {events[0].hook.id}, events[1..])
    else FirstHooks(seen, events[1..])
  }

  function ApplyAll(row: Row, hooks: seq<Hook>): Row
    decreases |hooks|
  {
    if hooks == [] then row else ApplyAll(ApplyHook(row, hooks[0]), hooks[1..])
  }

  /** No step of a call touches a delivery that has its message and no call in flight. */
  lemma CallsLeaveAlone(s: Db, e: CallStep, key: Id)
    requires key in s.rows && s.rows[key].message.Some? && Quiet(s, key)
    ensures var t := DoDeliver(s, e); Quiet(t, key) && key in t.rows && t.rows[key] == s.rows[key] && t.seen == s.seen
  {
  }

  lemma {:induction false} RunIsApplyAll(s: Db, events: seq<Event>, key: Id)
    requires key in s.rows && s.rows[key].message.Some? && Quiet(s, key)
    ensures key in Run(s, events).rows && Run(s, events).rows[key] == ApplyAll(s.rows[key], FirstHooks(s.seen, events))
    decreases |events|
  {
    if events != [] {
      var e := events[0];
      var t := Step(s, e);
      if e.Deliver? { CallsLeaveAlone(s, e.step, key); }
      RunIsApplyAll(t, events[1..], key);
      if e.Webhook? && e.hook.id !in s.seen {
        var hooks := FirstHooks(s.seen, events);
        assert hooks[0] == e.hook && hooks[1..] == FirstHooks(t.seen, events[1..]);
      }
    }
  }

  // ---------------------------------------------------------------- the newest event

  /** The columns that the register owns from the moment the message is stored. */
  datatype Register = Register(status: Status, lastEventAt: Option<Time>)

  function RegisterOf(row: Row): Register {
    Register(row.status, row.lastEventAt)
  }

  lemma {:induction false} ApplyOlder(row: Row, hooks: seq<Hook>)
    requires row.lastEventAt.Some?
    requires forall h :: h in hooks && Concerns(h, row) ==> h.at <= row.lastEventAt.value
    ensures ApplyAll(row, hooks) == row
    decreases |hooks|
  {
    if hooks != [] {
      assert hooks[0] in hooks;
      ApplyOlder(row, hooks[1..]);
    }
  }

  /** `hooks[j]` is the newest that concerns the row, and the first of its time. */
  ghost predicate NewestAt(row: Row, hooks: seq<Hook>, j: nat) {
    && j < |hooks| && Concerns(hooks[j], row) && Newer(hooks[j], row)
    && (forall k :: 0 <= k < j && Concerns(hooks[k], row) ==> hooks[k].at < hooks[j].at)
    && (forall k :: j < k < |hooks| && Concerns(hooks[k], row) ==> hooks[k].at <= hooks[j].at)
  }

  /** The status that each kind of event reports. */
  predicate Spells(kind: Kind, status: Status) {
    || (kind == KindDelivered && status == Delivered) || (kind in {KindSent, KindScheduled} && status == Sent)
    || (kind == KindBounced && status == Bounced) || (kind == KindComplained && status == Complained)
    || (kind == KindFailed && status == Failed) || (kind == KindSuppressed && status == Suppressed)
  }

  /** The register says what the event reports, at its time. */
  predicate Repeats(g: Register, h: Hook) {
    Spells(h.kind, g.status) && g.lastEventAt == Some(h.at)
  }

  /** The register `g` shows `hooks[j]`, the newest. */
  ghost predicate Shows(row: Row, hooks: seq<Hook>, g: Register, j: nat) {
    NewestAt(row, hooks, j) && Repeats(g, hooks[j])
  }

  lemma {:induction false} NewestShows(row: Row, hooks: seq<Hook>, j: nat)
    requires NewestAt(row, hooks, j)
    ensures Repeats(RegisterOf(ApplyAll(row, hooks)), hooks[j])
    decreases |hooks|
  {
    var r := ApplyHook(row, hooks[0]);
    var rest := hooks[1..];
    if j == 0 {
      forall h | h in rest && Concerns(h, r) ensures h.at <= r.lastEventAt.value {
        var k :| 0 <= k < |rest| && rest[k] == h;
        assert hooks[k + 1] == h;
      }
      ApplyOlder(r, rest);
    } else {
      assert rest[j - 1] == hooks[j];
      forall k | 0 <= k < |rest| ensures rest[k] == hooks[k + 1] {}
      NewestShows(r, rest, j - 1);
    }
  }

  /** Unless no hook concerns the row, there is a newest one. */
  lemma {:induction false} NewestExists(row: Row, hooks: seq<Hook>) returns (j: nat)
    requires exists h :: h in hooks && Concerns(h, row) && Newer(h, row)
    ensures NewestAt(row, hooks, j)
    decreases |hooks|
  {
    var n := |hooks| - 1;
    var init := hooks[..n];
    assert forall k :: 0 <= k < n ==> init[k] == hooks[k];
    if exists h :: h in init && Concerns(h, row) && Newer(h, row) {
      j := NewestExists(row, init);
      if Concerns(hooks[n], row) && hooks[j].at < hooks[n].at { j := n; }
    } else {
      j := n;
      forall k | 0 <= k < n ensures !(Concerns(hooks[k], row) && Newer(hooks[k], row)) { assert init[k] in init; }
    }
  }

  lemma {:induction false} ApplyStale(row: Row, hooks: seq<Hook>)
    requires forall h :: h in hooks ==> !Concerns(h, row) || !Newer(h, row)
    ensures ApplyAll(row, hooks) == row
    decreases |hooks|
  {
    if hooks != [] {
      assert hooks[0] in hooks;
      ApplyStale(row, hooks[1..]);
    }
  }

  /**
    From any moment at which a delivery has its message and its last call has ended, however calls
    overlapped before, it shows the newest event first registered since then, unless none is newer
    than what it has heard of: then its status and time stay.
  */
  lemma RegisterSinceQuiet(s: Db, events: seq<Event>, key: Id)
    requires key in s.rows && s.rows[key].message.Some? && Quiet(s, key)
    ensures var row, hooks, t := s.rows[key], FirstHooks(s.seen, events), Run(s, events);
            && key in t.rows
            && (if exists h :: h in hooks && Concerns(h, row) && Newer(h, row)
                then exists j: nat :: Shows(row, hooks, RegisterOf(t.rows[key]), j)
                else RegisterOf(t.rows[key]) == RegisterOf(row))
  {
    var row, hooks := s.rows[key], FirstHooks(s.seen, events);
    RunIsApplyAll(s, events, key);
    if exists h :: h in hooks && Concerns(h, row) && Newer(h, row) {
      var j := NewestExists(row, hooks);
      NewestShows(row, hooks, j);
      assert Shows(row, hooks, RegisterOf(Run(s, events).rows[key]), j);
    } else {
      ApplyStale(row, hooks);
    }
  }

  // ---------------------------------------------------------------- from the empty database

  /** Step `i` stores the message of `key`, and no other call for it is in flight then. */
  ghost predicate GetsMessage(events: seq<Event>, i: nat, key: Id) {
    && i < |events|
    && RowOf(Run(Empty(), events[..i]), key).message.None?
    && RowOf(Run(Empty(), events[..i + 1]), key).message.Some?
    && Quiet(Run(Empty(), events[..i + 1]), key)
  }

  lemma {:induction false} RunSnoc(s: Db, events: seq<Event>)
    requires events != []
    ensures Run(s, events) == Step(Run(s, events[..|events| - 1]), events[|events| - 1])
  {
    var n := |events| - 1;
    RunAppend(s, events[..n], events[n..]);
    assert events == events[..n] + events[n..] && events[n..] == [events[n]];
    RunOne(Run(s, events[..n]), events[n]);
  }

  /** At that moment the register says SENT and has heard of no event. */
  lemma FreshRegister(events: seq<Event>, i: nat, key: Id)
    requires GetsMessage(events, i, key)
    ensures var u := Run(Empty(), events[..i + 1]);
            key in u.rows && RegisterOf(u.rows[key]) == Register(Sent, None) && u.rows[key].failedAt.None?
  {
    var s, u := Run(Empty(), events[..i]), Run(Empty(), events[..i + 1]);
    RunKeepsCalls(Empty(), events[..i]);
    RunSnoc(Empty(), events[..i + 1]);
    assert events[..i + 1][..i] == events[..i];
    if key in s.rows { assert RowSound(s.rows[key]); }
    OnlyStoringGivesMessage(s, events[i], key);
  }

  lemma OnlyStoringGivesMessage(s: Db, e: Event, key: Id)
    requires RowOf(s, key).message.None? && RowOf(Step(s, e), key).message.Some?
    ensures var u := Step(s, e); key in u.rows && exists m :: u.rows[key] == Stored(RowOf(s, key), m, s.clock)
  {
    assert e.Deliver? && e.step.Store?;
    var p := s.calls[e.step.call];
    assert Step(s, e).rows[key] == Stored(RowOf(s, key), p.message, s.clock);
  }

  /**
    In every run, a delivery that got its message shows the newest of the mapped events that were
    first registered after that, whatever their order and repetition, and SENT if there is none.
  */
  lemma RegisterIsNewestSince(events: seq<Event>, i: nat, key: Id)
    requires GetsMessage(events, i, key)
    ensures var u := Run(Empty(), events[..i + 1]);
            var hooks := FirstHooks(u.seen, events[i + 1..]);
            var t := Run(Empty(), events);
            && key in u.rows && key in t.rows
            && ((forall h :: h in hooks ==> !Concerns(h, u.rows[key])) ==> RegisterOf(t.rows[key]) == Register(Sent, None))
            && ((exists h :: h in hooks && Concerns(h, u.rows[key])) ==>
                  exists j: nat :: Shows(u.rows[key], hooks, RegisterOf(t.rows[key]), j))
  {
    var u := Run(Empty(), events[..i + 1]);
    var hooks := FirstHooks(u.seen, events[i + 1..]);
    RunSplit(events, i + 1);
    FreshRegister(events, i, key);
    RegisterSinceQuiet(u, events[i + 1..], key);
  }

  lemma RunSplit(events: seq<Event>, n: nat)
    requires n <= |events|
    ensures Run(Empty(), events) == Run(Run(Empty(), events[..n]), events[n..])
  {
    assert events == events[..n] + events[n..];
    RunAppend(Empty(), events[..n], events[n..]);
  }

  // ---------------------------------------------------------------- exactly when the newest event shows

  lemma {:induction false} SeenIsRegistered(s: Db, events: seq<Event>, id: Id)
    ensures id in Run(s, events).seen <==> id in s.seen || exists h: Hook :: Webhook(h) in events && h.id == id
    decreases |events|
  {
    if events != [] {
      var e := events[0];
      var t := Step(s, e);
      SeenIsRegistered(t, events[1..], id);
      SeenByStep(s, e);
      assert e in events && forall x :: x in events <==> x == e || x in events[1..];
    }
  }

  lemma SeenByStep(s: Db, e: Event)
    ensures Step(s, e).seen == s.seen + if e.Webhook? then {e.hook.id} else {}
  {
  }

  lemma {:induction false} FirstHooksAre(seen: set<Id>, events: seq<Event>)
    ensures forall h :: h in FirstHooks(seen, events) ==> Webhook(h) in events && h.id !in seen
    ensures forall i, j :: 0 <= i < j < |FirstHooks(seen, events)| ==> FirstHooks(seen, events)[i].id != FirstHooks(seen, events)[j].id
    decreases |events|
  {
    if events != [] {
      var e := events[0];
      if e.Webhook? && e.hook.id !in seen {
        var rest := FirstHooks(seen + {e.hook.id}, events[1..]);
        FirstHooksAre(seen + {e.hook.id}, events[1..]);
        assert FirstHooks(seen, events) == [e.hook] + rest;
      } else {
        FirstHooksAre(seen, events[1..]);
      }
    }
  }

  lemma {:induction false} UnseenIsHeard(seen: set<Id>, events: seq<Event>, h: Hook)
    requires Webhook(h) in events && h.id !in seen && forall x: Hook :: Webhook(x) in events && x.id == h.id ==> x == h
    ensures h in FirstHooks(seen, events)
    decreases |events|
  {
    var e := events[0];
    if e != Webhook(h) {
      assert Webhook(h) in events[1..];
      assert e in events;
      UnseenIsHeard(if e.Webhook? then seen + {e.hook.id} else seen, events[1..], h);
      if e.Webhook? && e.hook.id in seen { assert seen + {e.hook.id} == seen; }
    }
  }

  /** Every event about the row other than `h` is older than `h`, and only `h` has its identifier. */
  ghost predicate IsTheNewest(events: seq<Event>, row: Row, h: Hook) {
    && Webhook(h) in events && Concerns(h, row)
    && (forall x: Hook :: Webhook(x) in events && x.id == h.id ==> x == h)
    && (forall x: Hook :: Webhook(x) in events && Concerns(x, row) && x != h ==> x.at < h.at)
  }

  /**
    A delivery shows its newest mapped event if and only if that event was not yet registered when
    the message was stored. An event registered before is lost: its repetitions are skipped.
  */
  lemma ShowsNewestExactlyWhen(events: seq<Event>, i: nat, key: Id, h: Hook)
    requires GetsMessage(events, i, key)
    requires IsTheNewest(events, RowOf(Run(Empty(), events[..i + 1]), key), h)
    ensures Repeats(RegisterOf(RowOf(Run(Empty(), events), key)), h)
            <==> Webhook(h) !in events[..i + 1]
  {
    var before, after := events[..i + 1], events[i + 1..];
    var u := Run(Empty(), before);
    var hooks := FirstHooks(u.seen, after);
    FreshRegister(events, i, key);
    RegisterIsNewestSince(events, i, key);
    HeardExactlyWhen(events, i + 1, h);
    HeardAreEvents(events, i + 1);
    if h in hooks {
      ShowsIfHeard(events, RowOf(u, key), hooks, RegisterOf(RowOf(Run(Empty(), events), key)), h);
    } else {
      HidesIfNotHeard(events, RowOf(u, key), hooks, RegisterOf(RowOf(Run(Empty(), events), key)), h);
    }
  }

  lemma HeardAreEvents(events: seq<Event>, n: nat)
    requires n <= |events|
    ensures forall x :: x in FirstHooks(Run(Empty(), events[..n]).seen, events[n..]) ==> Webhook(x) in events
  {
    FirstHooksAre(Run(Empty(), events[..n]).seen, events[n..]);
    assert forall e :: e in events[n..] ==> e in events;
  }

  /** After the first `n` events, an event is first registered if and only if it is not among those. */
  lemma HeardExactlyWhen(events: seq<Event>, n: nat, h: Hook)
    requires n <= |events| && Webhook(h) in events && forall x: Hook :: Webhook(x) in events && x.id == h.id ==> x == h
    ensures h in FirstHooks(Run(Empty(), events[..n]).seen, events[n..]) <==> Webhook(h) !in events[..n]
  {
    var before, after := events[..n], events[n..];
    var seen := Run(Empty(), before).seen;
    FirstHooksAre(seen, after);
    SeenIsRegistered(Empty(), before, h.id);
    assert events == before + after;
    assert forall e :: e in before || e in after ==> e in events;
    if Webhook(h) !in before { UnseenIsHeard(seen, after, h); }
  }

  lemma ShowsIfHeard(events: seq<Event>, row: Row, hooks: seq<Hook>, g: Register, h: Hook)
    requires h in hooks && IsTheNewest(events, row, h) && forall x :: x in hooks ==> Webhook(x) in events
    requires exists j: nat :: Shows(row, hooks, g, j)
    ensures Repeats(g, h)
  {
    var j: nat :| Shows(row, hooks, g, j);
    var k :| 0 <= k < |hooks| && hooks[k] == h;
    assert hooks[j] in hooks;
  }

  lemma HidesIfNotHeard(events: seq<Event>, row: Row, hooks: seq<Hook>, g: Register, h: Hook)
    requires h !in hooks && IsTheNewest(events, row, h) && forall x :: x in hooks ==> Webhook(x) in events
    requires g == Register(Sent, None) || exists j: nat :: Shows(row, hooks, g, j)
    ensures g.lastEventAt != Some(h.at)
  {
    if g != Register(Sent, None) {
      var j: nat :| Shows(row, hooks, g, j);
      assert hooks[j] in hooks;
    }
  }

  /** The provider has accepted message `m`, and the service has not stored it yet. */
  lemma AcceptedNotStored(m: Id)
    ensures var c := Run(Empty(), [Deliver(Start(0, true)), Deliver(Count(0, true)), Deliver(Send(0, Accepted(m)))]);
            c.calls == map[0 := Storing(0, 1, m)] && c.rows == map[0 := Counted(Fresh())] && c.seen == {} && c.clock == 0
  {
    RunThree(Empty(), Deliver(Start(0, true)), Deliver(Count(0, true)), Deliver(Send(0, Accepted(m))));
    var a := DoStart(Empty(), 0, true);
    assert a.calls == map[0 := Attempting(0, 1)] && a.rows == map[0 := Fresh()];
    var b := DoCount(a, 0, true);
    assert b.calls == map[0 := Calling(0, 1)] && b.rows == map[0 := Counted(Fresh())];
  }

  lemma HookThenStore(c: Db, h: Hook, m: Id)
    requires c.calls == map[0 := Storing(0, 1, m)] && c.rows == map[0 := Counted(Fresh())] && h.id !in c.seen
    ensures var t := Run(c, [Webhook(h), Deliver(Store(0, true)), Webhook(h)]); RowOf(t, 0) == Stored(Counted(Fresh()), m, c.clock)
  {
    RunThree(c, Webhook(h), Deliver(Store(0, true)), Webhook(h));
    var d := DoHook(c, h);
    assert d.rows == c.rows && h.id in d.seen && d.calls == c.calls;
    var e := DoStore(d, 0, true);
    assert e.rows[0] == Stored(Counted(Fresh()), m, c.clock) && DoHook(e, h) == e;
  }

  /** It does happen: the provider reports before the service has stored the message, and reports again. */
  lemma EarlyEventIsLost(h: Hook)
    requires h.message.Some? && StatusFor(h.kind).Some?
    ensures var events := [Deliver(Start(0, true)), Deliver(Count(0, true)), Deliver(Send(0, Accepted(h.message.value)))]
                          + [Webhook(h), Deliver(Store(0, true)), Webhook(h)];
            var row := RowOf(Run(Empty(), events), 0);
            Concerns(h, row) && RegisterOf(row) == Register(Sent, None)
  {
    var m := h.message.value;
    var before := [Deliver(Start(0, true)), Deliver(Count(0, true)), Deliver(Send(0, Accepted(m)))];
    RunAppend(Empty(), before, [Webhook(h), Deliver(Store(0, true)), Webhook(h)]);
    AcceptedNotStored(m);
    HookThenStore(Run(Empty(), before), h, m);
  }

  // ---------------------------------------------------------------- with calls in flight

  /** The events that name the message of `key` at the moment they are first registered. */
  function Heard(s: Db, events: seq<Event>, key: Id): seq<Hook>
    decreases |events|
  {
    if events == [] then []
    else
      var e, rest := events[0], Heard(Step(s, events[0]), events[1..], key);
      if e.Webhook? && e.hook.id !in s.seen && Concerns(e.hook, RowOf(s, key)) then [e.hook] + rest else rest
  }

  function Latest(at: Option<Time>, hooks: seq<Hook>): Option<Time>
    decreases |hooks|
  {
    if hooks == [] then at
    else Latest(if at.None? || at.value < hooks[0].at then Some(hooks[0].at) else at, hooks[1..])
  }

  lemma {:induction false} LatestIsLatest(at: Option<Time>, hooks: seq<Hook>)
    ensures Latest(at, hooks).None? <==> at.None? && hooks == []
    ensures Latest(at, hooks).Some? ==>
              && (at.Some? ==> at.value <= Latest(at, hooks).value)
              && (forall h :: h in hooks ==> h.at <= Latest(at, hooks).value)
              && (Latest(at, hooks) == at || exists h :: h in hooks && h.at == Latest(at, hooks).value)
    decreases |hooks|
  {
    if hooks != [] {
      var next := if at.None? || at.value < hooks[0].at then Some(hooks[0].at) else at;
      LatestIsLatest(next, hooks[1..]);
      assert hooks[0] in hooks && forall h :: h in hooks ==> h == hooks[0] || h in hooks[1..];
    }
  }

  lemma CallsKeepTime(s: Db, e: CallStep, key: Id)
    ensures RowOf(DoDeliver(s, e), key).lastEventAt == RowOf(s, key).lastEventAt
  {
  }

  /**
    In every run, whatever calls are in flight, the event time of a delivery is the latest of the
    mapped events that named its message when they were first registered.
  */
  lemma {:induction false} TimeIsLatestHeard(s: Db, events: seq<Event>, key: Id)
    ensures RowOf(Run(s, events), key).lastEventAt == Latest(RowOf(s, key).lastEventAt, Heard(s, events, key))
    decreases |events|
  {
    if events != [] {
      var e := events[0];
      if e.Deliver? { CallsKeepTime(s, e.step, key); }
      TimeIsLatestHeard(Step(s, e), events[1..], key);
      if e.Webhook? && e.hook.id !in s.seen && Concerns(e.hook, RowOf(s, key)) {
        assert Heard(s, events, key)[1..] == Heard(Step(s, e), events[1..], key);
      }
    }
  }

  /** The status that a step writes into the row of `key`, if it writes one. */
  function Writes(s: Db, e: Event, key: Id): Option<Status> {
    match e
    case Tick(_) => None
    case Webhook(h) =>
      if h.id !in s.seen && Concerns(h, RowOf(s, key)) && Newer(h, RowOf(s, key)) then StatusFor(h.kind) else None
    case Deliver(d) =>
      if d.Start? || d.call !in s.calls || s.calls[d.call].key != key then None else WritesCall(s.calls[d.call], d)
  }

  /** Counting writes SENDING, storing SENT, noting an error PENDING or FAILED, and recording a failure FAILED. */
  function WritesCall(p: Phase, d: CallStep): Option<Status> {
    match d
    case Count(_, begun) => if p.Attempting? && begun then Some(Sending) else None
    case Store(_, stored) => if p.Storing? && stored then Some(Sent) else None
    case Note(_, noted) => if p.Noting? && noted then Some(if p.retryable && p.n < MAX_ATTEMPTS then Pending else Failed) else None
    case Record(_, recorded) => if p.Recording? && recorded then Some(Failed) else None
    case _ => None
  }

  function LastWritten(s: Db, events: seq<Event>, key: Id, status: Status): Status
    decreases |events|
  {
    if events == [] then status
    else
      var w := Writes(s, events[0], key);
      LastWritten(Step(s, events[0]), events[1..], key, if w.Some? then w.value else status)
  }

  lemma CallWrites(s: Db, d: CallStep, key: Id)
    ensures var w := Writes(s, Deliver(d), key);
            RowOf(DoDeliver(s, d), key).status == if w.Some? then w.value else RowOf(s, key).status
  {
  }

  lemma HookWrites(s: Db, h: Hook, key: Id)
    ensures var w := Writes(s, Webhook(h), key);
            RowOf(DoHook(s, h), key).status == if w.Some? then w.value else RowOf(s, key).status
  {
  }

  /**
    In every run, whatever calls overlap, the status of a delivery is the last one written: by a call
    in flight, or by an event that named its message when first registered and was newer than the
    events heard before. A call that outlives a success or an event can so hide it.
  */
  lemma {:induction false} StatusIsLastWritten(s: Db, events: seq<Event>, key: Id)
    ensures RowOf(Run(s, events), key).status == LastWritten(s, events, key, RowOf(s, key).status)
    decreases |events|
  {
    if events != [] {
      match events[0] {
        case Tick(_) =>
        case Deliver(d) => CallWrites(s, d, key);
        case Webhook(h) => HookWrites(s, h, key);
      }
      StatusIsLastWritten(Step(s, events[0]), events[1..], key);
    }
  }

  // ---------------------------------------------------------------- a success stands

  ghost predicate WithoutHooks(events: seq<Event>) {
    forall e :: e in events ==> !e.Webhook?
  }

  lemma {:induction false} NoHooksNoneFirst(seen: set<Id>, events: seq<Event>)
    requires WithoutHooks(events)
    ensures FirstHooks(seen, events) == []
    decreases |events|
  {
    if events != [] {
      assert events[0] in events;
      NoHooksNoneFirst(seen, events[1..]);
    }
  }

  /** No call changes the status any more, whatever the calls do. */
  ghost predicate Stands(s: Db, key: Id) {
    forall events :: WithoutHooks(events) ==> RowOf(Run(s, events), key).status == Sent
  }

  /** A call in flight can overwrite the success of another with a failure. */
  lemma InFlightOverwrites(s: Db, c: Id)
    requires c in s.calls && s.calls[c].key in s.rows
    ensures !Stands(s, s.calls[c].key)
  {
    var p := s.calls[c];
    var note := Deliver(Note(c, true));
    match p
    case Recording(_, _) => Overwrites(s, [Deliver(Record(c, true))], p.key) by { RunOne(s, Deliver(Record(c, true))); }
    case Attempting(_, _) => Overwrites(s, [Deliver(Count(c, true))], p.key) by { RunOne(s, Deliver(Count(c, true))); }
    case Noting(_, _, _, _) => Overwrites(s, [note], p.key) by { RunOne(s, note); }
    case Storing(_, _, _) => Overwrites(s, [Deliver(Store(c, false)), note], p.key) by { RunTwo(s, Deliver(Store(c, false)), note); }
    case Calling(_, _) =>
      var send := Deliver(Send(c, Refused(0, false)));
      Overwrites(s, [send, note], p.key) by { RunTwo(s, send, note); }
  }

  lemma Overwrites(s: Db, events: seq<Event>, key: Id)
    requires WithoutHooks(events) && RowOf(Run(s, events), key).status != Sent
    ensures !Stands(s, key)
  {
  }

  /** A recorded success is not overwritten by calls if and only if no call for the key is in flight. */
  lemma SuccessStandsExactlyWhen(s: Db, key: Id)
    requires CallsOk(s) && key in s.rows && s.rows[key].message.Some? && s.rows[key].status == Sent
    ensures Stands(s, key) <==> Quiet(s, key)
  {
    if Quiet(s, key) {
      forall events | WithoutHooks(events) ensures RowOf(Run(s, events), key).status == Sent {
        RunIsApplyAll(s, events, key);
        NoHooksNoneFirst(s.seen, events);
      }
    } else {
      var c :| c in s.calls && s.calls[c].key == key;
      InFlightOverwrites(s, c);
    }
  }
}
