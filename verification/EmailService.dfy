/**
  `TransactionalEmailService` and `ResendWebhookService`, with the rows changed in place. `Deliver`
  is the loop of one call by itself; the other methods are the steps that calls in flight interleave.
*/
module EmailService {
  import opened Common
  import opened Email
  import EmailCalls

  lemma ReachStart(s: Db, key: Id, built: bool)
    requires Reachable(s)
    ensures Reachable(DoStart(s, key, built))
  {
    ReachStep(s, Deliver(Start(key, built)));
  }

  class Service {
    var clock: Time
    var rows: map<Id, Row>
    var seen: set<Id>
    var sends: map<Id, nat>
    var calls: map<Id, Phase>
    var nextCall: Id
    var reports: map<Id, bool>

    ghost function State(): Db
      reads this
    {
      Db(clock, rows, seen, sends, calls, nextCall, reports)
    }

    /** Some run of the service leads here, so whatever holds in every run holds now. */
    ghost predicate Valid()
      reads this
    {
      Reachable(State())
    }

    constructor ()
      ensures State() == Empty() && Valid()
    {
      clock, rows, seen, sends, calls, nextCall, reports := 0, map[], {}, map[], map[], 0, map[];
      new;
      assert State() == Run(Empty(), []);
    }

    function Current(key: Id): Row
      reads this`rows
    {
      if key in rows then rows[key] else Fresh()
    }

    method Save(key: Id, row: Row)
      modifies this`rows
      ensures rows == old(rows)[key := row]
    {
      rows := rows[key := row];
    }

    // -------------------------------------------------------------- one call by itself

    /** The attempt loop; `thrown` is the exception it ends with, and `tried` counts the provider's calls. */
    method AttemptDelivery(key: Id, tries: Tries) returns (sent: bool, thrown: Option<Error>, tried: nat)
      requires key in rows
      modifies this`rows
      ensures key in rows && rows == old(rows)[key := rows[key]]
      ensures Tried(rows[key], tried, sent, thrown) == TryFrom(old(rows)[key], old(rows)[key].attempts + 1, tries, clock)
    {
      var attempt := rows[key].attempts + 1;
      tried := 0;
      ghost var whole := TryFrom(rows[key], attempt, tries, clock);
      while attempt <= MAX_ATTEMPTS
        invariant attempt >= 1 && key in rows && rows == old(rows)[key := rows[key]]
        invariant var rest := TryFrom(rows[key], attempt, tries, clock); whole == rest.(sends := rest.sends + tried)
        decreases MAX_ATTEMPTS + 1 - attempt
      {
        var t := tries[attempt - 1];
        if !t.begun { return false, Some(Internal), tried; }
        Save(key, Counted(rows[key]));
        tried := tried + 1;
        if t.answer.Accepted? && t.stored {
          Save(key, Stored(rows[key], t.answer.message, clock));
          return true, None, tried;
        }
        if !t.noted { return false, Some(Internal), tried; }
        var isFinal := !Retryable(t) || attempt == MAX_ATTEMPTS;
        Save(key, Noted(rows[key], Cause(t), Retryable(t), isFinal, clock));
        if isFinal { return false, Some(Cause(t)), tried; }
        attempt := attempt + 1;
      }
      return false, None, tried;
    }

    /** `deliver` after its upsert, undisturbed. */
    method Deliver(key: Id, call: Call) returns (sent: bool, tried: nat)
      requires key in rows
      modifies this`rows
      ensures var r := DeliverRow(old(rows)[key], call, clock);
              rows == old(rows)[key := r.row] && sent == r.sent && tried == r.sends
    {
      var existing := rows[key];
      if existing.status == Sent || existing.status == Delivered { return true, 0; }
      if existing.message.Some? || existing.attempts >= MAX_ATTEMPTS { return false, 0; }
      if !call.built {
        Save(key, FailedBy(rows[key], Internal, call.recorded, clock));
        return false, 0;
      }
      var thrown;
      sent, thrown, tried := AttemptDelivery(key, call.tries);
      if thrown.Some? { Save(key, FailedBy(rows[key], thrown.value, call.recorded, clock)); }
    }

    // -------------------------------------------------------------- the steps of calls in flight

    method Finish(c: Id, sent: bool)
      modifies this`calls, this`reports
      ensures calls == old(calls) - {c} && reports == old(reports)[c := sent]
    {
      calls := calls - {c};
      reports := reports[c := sent];
    }

    method Start(key: Id, built: bool) returns (c: Id)
      requires Valid()
      modifies this
      ensures State() == DoStart(old(State()), key, built) && c == old(nextCall)
      ensures Valid()
    {
      ReachStart(State(), key, built);
      c := nextCall;
      nextCall := nextCall + 1;
      if key !in rows { rows := rows[key := Fresh()]; }
      var row := rows[key];
      if row.status == Sent || row.status == Delivered {
        Finish(c, true);
      } else if row.message.Some? || row.attempts >= MAX_ATTEMPTS {
        Finish(c, false);
      } else if !built {
        calls := calls[c := Recording(key, Internal)];
      } else {
        calls := calls[c := Attempting(key, row.attempts + 1)];
      }
      assert rows == old(rows)[key := row];
    }

    method Count(c: Id, begun: bool)
      requires Valid()
      modifies this`rows, this`calls
      ensures State() == DoCount(old(State()), c, begun)
      ensures Valid()
    {
      ReachStep(State(), Event.Deliver(CallStep.Count(c, begun)));
      if c !in calls || !calls[c].Attempting? { return; }
      var p := calls[c];
      if !begun {
        calls := calls[c := Recording(p.key, Internal)];
        return;
      }
      Save(p.key, Current(p.key).(attempts := Current(p.key).attempts + 1, status := Sending));
      calls := calls[c := Calling(p.key, p.n)];
    }

    method Send(c: Id, answer: Answer)
      requires Valid()
      modifies this`sends, this`calls
      ensures State() == DoSend(old(State()), c, answer)
      ensures Valid()
    {
      ReachStep(State(), Event.Deliver(CallStep.Send(c, answer)));
      if c !in calls || !calls[c].Calling? { return; }
      var p := calls[c];
      var made := if p.key in sends then sends[p.key] else 0;
      sends := sends[p.key := made + 1];
      match answer {
        case Accepted(m) => calls := calls[c := Storing(p.key, p.n, m)];
        case Refused(code, retryable) => calls := calls[c := Noting(p.key, p.n, Provider(code), retryable)];
      }
    }

    method Store(c: Id, stored: bool)
      requires Valid()
      modifies this`rows, this`calls, this`reports
      ensures State() == DoStore(old(State()), c, stored)
      ensures Valid()
    {
      ReachStep(State(), Event.Deliver(CallStep.Store(c, stored)));
      if c !in calls || !calls[c].Storing? { return; }
      var p := calls[c];
      if stored {
        Save(p.key, Current(p.key).(failedAt := None, error := None, message := Some(p.message), sentAt := Some(clock), status := Sent));
        Finish(c, true);
      } else {
        calls := calls[c := Noting(p.key, p.n, Network, true)];
      }
    }

    method Note(c: Id, noted: bool)
      requires Valid()
      modifies this`rows, this`calls
      ensures State() == DoNote(old(State()), c, noted)
      ensures Valid()
    {
      ReachStep(State(), Event.Deliver(CallStep.Note(c, noted)));
      if c !in calls || !calls[c].Noting? { return; }
      var p := calls[c];
      if !noted {
        calls := calls[c := Recording(p.key, Internal)];
        return;
      }
      var isFinal := !p.retryable || p.n >= MAX_ATTEMPTS;
      Save(p.key, Noted(Current(p.key), p.cause, p.retryable, isFinal, clock));
      if isFinal {
        calls := calls[c := Recording(p.key, p.cause)];
      } else {
        calls := calls[c := Attempting(p.key, p.n + 1)];
      }
    }

    method Record(c: Id, recorded: bool)
      requires Valid()
      modifies this`rows, this`calls, this`reports
      ensures State() == DoRecord(old(State()), c, recorded)
      ensures Valid()
    {
      ReachStep(State(), Event.Deliver(CallStep.Record(c, recorded)));
      if c !in calls || !calls[c].Recording? { return; }
      var p := calls[c];
      Save(p.key, FailedBy(Current(p.key), p.cause, recorded, clock));
      Finish(c, false);
    }

    method RecordEvent(h: Hook)
      requires Valid()
      modifies this`rows, this`seen
      ensures State() == DoHook(old(State()), h)
      ensures Valid()
    {
      ReachStep(State(), Webhook(h));
      if h.id in seen { return; }
      seen := seen + {h.id};
      rows := map k | k in rows :: ApplyHook(rows[k], h);
    }

    method ServeCall(e: CallStep)
      requires Valid()
      modifies this
      ensures State() == DoDeliver(old(State()), e)
      ensures Valid()
    {
      ReachStep(State(), Event.Deliver(e));
      match e
      case Start(key, built) => var c := Start(key, built);
      case Count(c, begun) => Count(c, begun);
      case Send(c, answer) => Send(c, answer);
      case Store(c, stored) => Store(c, stored);
      case Note(c, noted) => Note(c, noted);
      case Record(c, recorded) => Record(c, recorded);
    }

    method ServeOne(e: Event)
      requires Valid()
      modifies this
      ensures State() == Step(old(State()), e) && Valid()
    {
      ReachStep(State(), e);
      match e
      case Tick(d) => clock := clock + d;
      case Deliver(d) => ServeCall(d);
      case Webhook(h) => RecordEvent(h);
    }

    /** Any interleaving keeps the accounts of every call, and leaves the state that `Run` computes. */
    method Serve(events: seq<Event>)
      requires Valid()
      modifies this
      ensures State() == Run(old(State()), events) && Valid()
    {
      var i := 0;
      while i < |events|
        invariant 0 <= i <= |events| && Valid()
        invariant Run(State(), events[i..]) == Run(old(State()), events)
      {
        ServeOne(events[i]);
        i := i + 1;
      }
    }

    /** In every reachable state every call is accounted for: attempts are the sends made and the sends counted but not yet made. */
    lemma Guarantees()
      requires Valid()
      ensures EmailCalls.CallsOk(State())
    {
      var events: seq<Event> :| State() == Run(Empty(), events);
      EmailCalls.RunKeepsCalls(Empty(), events);
    }
  }
}
