/**
  `BillingService.createCheckoutSession` and the webhook updates of its table, with the rows
  changed in place. The loop of `reserveCheckout` is the `attempt` that each request carries.
*/
module CheckoutService {
  import opened Common
  import opened Checkout
  import CheckoutSafety

  class Service {
    var clock: Time
    var nextId: Id
    var rows: map<Id, Row>
    var provider: map<Id, Session>
    var trialUsed: set<Id>
    var managed: set<Id>
    var inflight: map<Id, Phase>
    var answers: map<Id, Answer>
    ghost var issued: map<Id, Ask>

    ghost function State(): Db
      reads this
    {
      Db(clock, nextId, rows, provider, trialUsed, managed, inflight, issued, answers)
    }

    /** Some run of the service leads here, so whatever holds in every run holds now. */
    ghost predicate Valid()
      reads this
    {
      Reachable(State())
    }

    constructor ()
      ensures State() == Empty() && Valid()
    {
      clock, nextId, rows, provider, trialUsed, managed := 0, 0, map[], map[], {}, {};
      inflight, answers := map[], map[];
      issued := map[];
      new;
      assert State() == Run(Empty(), []);
    }

    method Answer(req: Id, a: Answer)
      modifies this`inflight, this`answers
      ensures inflight == old(inflight) - {req} && answers == old(answers)[req := a]
    {
      inflight := inflight - {req};
      answers := answers[req := a];
    }

    method Begin(req: Id, ask: Ask)
      requires Valid()
      modifies this`inflight, this`answers
      ensures State() == DoBegin(old(State()), req, ask)
      ensures Valid()
    {
      ReachStep(State(), Event.Begin(req, ask));
      if req in inflight || req in answers { return; }
      if ask.org in managed {
        Answer(req, Refused);
      } else {
        inflight := inflight[req := Starting(ask)];
      }
    }

    method ReadCustomer(req: Id)
      requires Valid()
      modifies this`inflight
      ensures State() == DoReadCustomer(old(State()), req)
      ensures Valid()
    {
      ReachStep(State(), Event.ReadCustomer(req));
      if req !in inflight || !inflight[req].Starting? { return; }
      var ask := inflight[req].ask;
      inflight := inflight[req := Reading(ask, ask.org !in trialUsed, 0)];
    }

    method Again(req: Id, ask: Ask, trial: bool, attempt: nat)
      modifies this`inflight, this`answers
      ensures State() == Retry(old(State()), req, ask, trial, attempt)
    {
      if attempt + 1 < MAX_ATTEMPTS {
        inflight := inflight[req := Reading(ask, trial, attempt + 1)];
      } else {
        Answer(req, Refused);
      }
    }

    method ReadRow(req: Id)
      requires Valid()
      modifies this`inflight, this`answers
      ensures State() == DoReadRow(old(State()), req)
      ensures Valid()
    {
      ReachStep(State(), Event.ReadRow(req));
      if req !in inflight || !inflight[req].Reading? { return; }
      var p := inflight[req];
      if p.ask.org !in rows {
        inflight := inflight[req := Creating(p.ask, p.trial, p.attempt, clock)];
        return;
      }
      var existing := rows[p.ask.org];
      if clock < existing.expiresAt {
        var stale := existing.session.None? && existing.createdAt + CREATION_LOCK <= clock;
        if stale {
          inflight := inflight[req := DroppingStale(p.ask, p.trial, p.attempt, existing.id, clock)];
        } else if existing.interval != p.ask.interval {
          Answer(req, Refused);
        } else if existing.session.Some? {
          Answer(req, Opened(p.ask, existing.key, existing.session.value));
        } else {
          inflight := inflight[req := Calling(p.ask, p.trial, existing.id, existing.key)];
        }
      } else {
        inflight := inflight[req := DroppingExpired(p.ask, p.trial, p.attempt, existing.id, clock)];
      }
    }

    method DropRow(req: Id)
      requires Valid()
      modifies this`rows, this`inflight, this`answers
      ensures State() == DoDropRow(old(State()), req)
      ensures Valid()
    {
      ReachStep(State(), Event.DropRow(req));
      if req !in inflight { return; }
      var p := inflight[req];
      if p.DroppingStale? {
        var org := p.ask.org;
        if org in rows && rows[org].id == p.row && rows[org].session.None? && rows[org].createdAt + CREATION_LOCK <= p.now {
          rows := rows - {org};
          inflight := inflight[req := Creating(p.ask, p.trial, p.attempt, p.now)];
        } else {
          Again(req, p.ask, p.trial, p.attempt);
        }
      } else if p.DroppingExpired? {
        var org := p.ask.org;
        if org in rows && rows[org].id == p.row && rows[org].expiresAt <= p.now { rows := rows - {org}; }
        inflight := inflight[req := Creating(p.ask, p.trial, p.attempt, p.now)];
      }
    }

    method CreateRow(req: Id)
      requires Valid()
      modifies this
      ensures State() == DoCreateRow(old(State()), req)
      ensures Valid()
    {
      ReachStep(State(), Event.CreateRow(req));
      if req !in inflight || !inflight[req].Creating? { return; }
      var p := inflight[req];
      if p.ask.org in rows {
        Again(req, p.ask, p.trial, p.attempt);
        return;
      }
      var id, key := nextId, nextId + 1;
      nextId := nextId + 2;
      issued := issued[key := p.ask];
      rows := rows[p.ask.org := Row(id, key, p.ask.interval, None, p.now + ROW_TTL, clock)];
      inflight := inflight[req := Calling(p.ask, p.trial, id, key)];
    }

    method CallProvider(req: Id, available: bool, expiresAt: Option<Time>)
      requires Valid()
      modifies this`provider, this`nextId, this`inflight
      ensures State() == DoCallProvider(old(State()), req, available, expiresAt)
      ensures Valid()
    {
      ReachStep(State(), Event.CallProvider(req, available, expiresAt));
      if req !in inflight || !inflight[req].Calling? { return; }
      var p := inflight[req];
      if !available {
        inflight := inflight[req := Cleaning(p.ask, p.row, p.key)];
        return;
      }
      if p.key !in provider {
        provider := provider[p.key := Session(nextId, p.ask, p.trial, expiresAt)];
        nextId := nextId + 1;
      }
      inflight := inflight[req := Storing(p.ask, p.key, provider[p.key])];
    }

    method CleanRow(req: Id)
      requires Valid()
      modifies this`rows, this`inflight, this`answers
      ensures State() == DoCleanRow(old(State()), req)
      ensures Valid()
    {
      ReachStep(State(), Event.CleanRow(req));
      if req !in inflight || !inflight[req].Cleaning? { return; }
      var p := inflight[req];
      var org := p.ask.org;
      if org in rows && rows[org].id == p.row && rows[org].key == p.key && rows[org].session.None? {
        rows := rows - {org};
      }
      Answer(req, Refused);
    }

    method StoreSession(req: Id)
      requires Valid()
      modifies this`rows, this`nextId, this`inflight, this`answers
      ensures State() == DoStoreSession(old(State()), req)
      ensures Valid()
    {
      ReachStep(State(), Event.StoreSession(req));
      if req !in inflight || !inflight[req].Storing? { return; }
      var p := inflight[req];
      var org := p.ask.org;
      var expiresAt := clock + DAY;
      if p.made.expiresAt.Some? { expiresAt := p.made.expiresAt.value; }
      if org in rows && rows[org].key != p.key {
        Answer(req, Refused);
        return;
      }
      if org in rows {
        rows := rows[org := rows[org].(session := Some(p.made.id), expiresAt := expiresAt)];
      } else {
        rows := rows[org := Row(nextId, p.key, p.ask.interval, Some(p.made.id), expiresAt, clock)];
        nextId := nextId + 1;
      }
      Answer(req, Opened(p.ask, p.key, p.made.id));
    }

    method SyncHook(org: Id, trial: bool, stillManaged: bool)
      requires Valid()
      modifies this`rows, this`trialUsed, this`managed
      ensures State() == DoSyncHook(old(State()), org, trial, stillManaged)
      ensures Valid()
    {
      ReachStep(State(), Event.SyncHook(org, trial, stillManaged));
      rows := rows - {org};
      if trial { trialUsed := trialUsed + {org}; }
      if stillManaged { managed := managed + {org}; } else { managed := managed - {org}; }
    }

    method CompletedHook(session: Id)
      requires Valid()
      modifies this`rows
      ensures State() == DoCompletedHook(old(State()), session) && Valid()
      ensures forall org :: org in rows <==> org in old(rows) && old(rows)[org].session != Some(session)
    {
      ReachStep(State(), Event.CompletedHook(session));
      rows := map org | org in rows && rows[org].session != Some(session) :: rows[org];
    }

    method Wait(d: nat)
      requires Valid()
      modifies this`clock
      ensures State() == old(State()).(clock := old(clock) + d) && Valid()
    {
      ReachStep(State(), Tick(d));
      clock := clock + d;
    }

    method Serve(e: Event)
      requires Valid()
      modifies this
      ensures State() == Step(old(State()), e)
      ensures Valid()
    {
      match e
      case Tick(d) => Wait(d);
      case Begin(r, ask) => Begin(r, ask);
      case ReadCustomer(r) => ReadCustomer(r);
      case ReadRow(r) => ReadRow(r);
      case DropRow(r) => DropRow(r);
      case CreateRow(r) => CreateRow(r);
      case CallProvider(r, ok, x) => CallProvider(r, ok, x);
      case CleanRow(r) => CleanRow(r);
      case StoreSession(r) => StoreSession(r);
      case CompletedHook(x) => CompletedHook(x);
      case SyncHook(org, trial, m) => SyncHook(org, trial, m);
    }

    /** Any interleaving of steps leaves the state that `Run` computes. */
    method ServeAll(events: seq<Event>)
      requires Valid()
      modifies this
      ensures State() == Run(old(State()), events)
      ensures Valid()
    {
      var i := 0;
      while i < |events|
        invariant 0 <= i <= |events| && Valid()
        invariant Run(State(), events[i..]) == Run(old(State()), events)
      {
        Serve(events[i]);
        i := i + 1;
      }
    }

    /** In every reachable state: rows, keys, sessions, requests and answers are consistent. */
    lemma Guarantees()
      requires Valid()
      ensures CheckoutSafety.CheckoutOk(State())
    {
      var events: seq<Event> :| State() == Run(Empty(), events);
      CheckoutSafety.RunKeeps(Empty(), events);
    }
  }
}
