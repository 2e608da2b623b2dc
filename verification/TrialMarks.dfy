/**
  Webhook sync and checkout share the customer's trial mark and the subscription row. A sync that is
  applied is the hook that checkout sees, so the two models record the same trials.
*/
module TrialMarks {
  import opened Common
  import S = Subscriptions
  import SubscriptionReplica
  import C = Checkout
  import CheckoutSafety
  import CheckoutTrial

  /** `isManagedSubscription`. */
  predicate Managed(status: S.Status) {
    status.Active? || status.Trialing? || status.PastDue? || status.Incomplete?
  }

  /** The hook that checkout sees of an event: the sync it applies, if it applies one. */
  function HookOf(s: S.Replica, e: S.Event): seq<C.Event> {
    if e.Deliver? && e.delivery.event !in s.processed && S.SyncOf(s.config, e.delivery).Some? then
      var x := S.SyncOf(s.config, e.delivery).value;
      if x.org in s.owners && !S.Outdated(S.RowOf(s, x.org), x) then [C.SyncHook(x.org, x.sub.trialStart.Some?, Managed(x.sub.status))]
      else []
    else []
  }

  function HooksOf(s: S.Replica, events: seq<S.Event>): seq<C.Event>
    decreases |events|
  {
    if events == [] then [] else HookOf(s, events[0]) + HooksOf(S.Step(s, events[0]), events[1..])
  }

  function SyncHooks(steps: seq<C.Event>): seq<C.Event>
    decreases |steps|
  {
    if steps == [] then [] else (if steps[0].SyncHook? then [steps[0]] else []) + SyncHooks(steps[1..])
  }

  /** The same organizations have used their trial, and the same have a subscription that is managed elsewhere. */
  ghost predicate Agree(s: S.Replica, c: C.Db) {
    && (forall org :: org in s.trialUsedAt <==> org in c.trialUsed)
    && (forall org :: org in c.managed <==> org in s.rows && Managed(s.rows[org].copy.status))
  }

  lemma SyncAgrees(s: S.Replica, c: C.Db, x: S.Sync)
    requires Agree(s, c) && x.org in s.owners && !S.Outdated(S.RowOf(s, x.org), x)
    ensures Agree(S.DoSync(s, x), C.DoSyncHook(c, x.org, x.sub.trialStart.Some?, Managed(x.sub.status)))
  {
  }

  lemma SameMarks(s: S.Replica, t: S.Replica, c: C.Db)
    requires Agree(s, c) && t.rows == s.rows && t.trialUsedAt == s.trialUsedAt
    ensures Agree(t, c)
  {
  }

  lemma EventAgrees(s: S.Replica, c: C.Db, e: S.Event)
    requires Agree(s, c)
    ensures HookOf(s, e) == [] ==> Agree(S.Step(s, e), c)
    ensures HookOf(s, e) != [] ==> Agree(S.Step(s, e), C.Step(c, HookOf(s, e)[0]))
  {
    SubscriptionReplica.StepSyncs(s, e);
    if HookOf(s, e) == [] {
      SameMarks(s, S.Step(s, e), c);
    } else {
      var x := S.SyncOf(s.config, e.delivery).value;
      SyncAgrees(s, c, x);
      SameMarks(S.DoSync(s, x), S.Step(s, e), C.Step(c, HookOf(s, e)[0]));
    }
  }

  ghost predicate MarksKept(c: C.Db, t: C.Db) {
    t.trialUsed == c.trialUsed && t.managed == c.managed
  }

  lemma ReadingKeepsMarks(c: C.Db, r: Id, ask: C.Ask)
    ensures MarksKept(c, C.DoBegin(c, r, ask)) && MarksKept(c, C.DoReadCustomer(c, r)) && MarksKept(c, C.DoReadRow(c, r))
  {
  }

  lemma ReservingKeepsMarks(c: C.Db, r: Id)
    ensures MarksKept(c, C.DoDropRow(c, r)) && MarksKept(c, C.DoCreateRow(c, r))
  {
  }

  lemma CallingKeepsMarks(c: C.Db, r: Id, ok: bool, x: Option<Time>)
    ensures MarksKept(c, C.DoCallProvider(c, r, ok, x)) && MarksKept(c, C.DoCleanRow(c, r)) && MarksKept(c, C.DoStoreSession(c, r))
  {
  }

  lemma OtherStepsKeepMarks(c: C.Db, d: C.Event)
    requires !d.SyncHook?
    ensures MarksKept(c, C.Step(c, d))
  {
    match d
    case Begin(r, ask) => ReadingKeepsMarks(c, r, ask);
    case ReadCustomer(r) => ReadingKeepsMarks(c, r, C.Ask(0, Monthly));
    case ReadRow(r) => ReadingKeepsMarks(c, r, C.Ask(0, Monthly));
    case DropRow(r) => ReservingKeepsMarks(c, r);
    case CreateRow(r) => ReservingKeepsMarks(c, r);
    case CallProvider(r, ok, x) => CallingKeepsMarks(c, r, ok, x);
    case CleanRow(r) => CallingKeepsMarks(c, r, true, None);
    case StoreSession(r) => CallingKeepsMarks(c, r, true, None);
    case Tick(_) =>
    case CompletedHook(_) =>
    case SyncHook(_, _, _) =>
  }

  lemma OtherStepsAgree(s: S.Replica, c: C.Db, d: C.Event)
    requires Agree(s, c) && !d.SyncHook?
    ensures Agree(s, C.Step(c, d))
  {
    OtherStepsKeepMarks(c, d);
  }

  /**
    A run of webhook syncs and a run of checkout that sees exactly their hooks, in whatever
    interleaving with its own steps, agree on who has used a trial and who is managed.
  */
  lemma {:induction false} MarksAgree(s: S.Replica, events: seq<S.Event>, c: C.Db, steps: seq<C.Event>)
    requires Agree(s, c) && SyncHooks(steps) == HooksOf(s, events)
    ensures Agree(S.Run(s, events), C.Run(c, steps))
    decreases |events| + |steps|
  {
    if steps != [] && !steps[0].SyncHook? {
      OtherStepsAgree(s, c, steps[0]);
      MarksAgree(s, events, C.Step(c, steps[0]), steps[1..]);
    } else if events != [] {
      EventAgrees(s, c, events[0]);
      var t := S.Step(s, events[0]);
      if HookOf(s, events[0]) == [] {
        MarksAgree(t, events[1..], c, steps);
      } else {
        assert HooksOf(s, events)[0] == HookOf(s, events[0])[0] && HooksOf(s, events)[1..] == HooksOf(t, events[1..]);
        assert SyncHooks(steps)[0] == steps[0] && SyncHooks(steps)[1..] == SyncHooks(steps[1..]);
        MarksAgree(t, events[1..], C.Step(c, steps[0]), steps[1..]);
      }
    } else {
      assert steps == [];
    }
  }

  /**
    When a webhook sync records an organization's trial mark, a later checkout can carry trial days
    again if and only if a request of that organization is then in flight that read its customer
    before and can still store an unexpired trial session.
  */
  lemma RecordedTrialExactlyWhen(config: S.Config, events: seq<S.Event>, e: S.Event, steps: seq<C.Event>, org: Id)
    requires SyncHooks(steps) == HooksOf(S.Start(config), events)
    requires var s := S.Run(S.Start(config), events); org !in s.trialUsedAt && org in S.Step(s, e).trialUsedAt
    ensures var s := S.Run(S.Start(config), events);
            HookOf(s, e) != [] && HookOf(s, e)[0].SyncHook? && HookOf(s, e)[0].org == org && HookOf(s, e)[0].trial
    ensures var s, c := S.Run(S.Start(config), events), C.Run(C.Empty(), steps);
            var t := C.Step(c, HookOf(s, e)[0]);
            && org !in c.trialUsed && org in t.trialUsed
            && (CheckoutTrial.TrialAgain(t, org) <==>
                  exists r :: r in t.inflight && t.inflight[r].ask.org == org && CheckoutTrial.MayStoreTrial(t, t.inflight[r]))
  {
    var s, c := S.Run(S.Start(config), events), C.Run(C.Empty(), steps);
    MarksAgree(S.Start(config), events, C.Empty(), steps);
    SubscriptionReplica.StepSyncs(s, e);
    EventAgrees(s, c, e);
    CheckoutSafety.RunKeeps(C.Empty(), steps);
    CheckoutTrial.TrialAgainExactlyWhen(c, org, HookOf(s, e)[0].managed);
  }

  /**
    After such runs a new checkout request is refused at once exactly if the webhooks left the
    organization a subscription that is active, trialing, past due or incomplete.
  */
  lemma RefusedWhileSubscribed(s: S.Replica, events: seq<S.Event>, c: C.Db, steps: seq<C.Event>, req: Id, ask: C.Ask) returns (t: C.Db)
    requires Agree(s, c) && SyncHooks(steps) == HooksOf(s, events)
    requires req !in C.Run(c, steps).inflight && req !in C.Run(c, steps).answers
    ensures t == C.Step(C.Run(c, steps), C.Begin(req, ask))
    ensures var rows := S.Run(s, events).rows;
            req in t.answers <==>
              ask.org in rows && rows[ask.org].copy.status in {S.Active, S.Trialing, S.PastDue, S.Incomplete}
    ensures req in t.answers ==> t.answers[req] == C.Refused
  {
    t := C.Step(C.Run(c, steps), C.Begin(req, ask));
    MarksAgree(s, events, c, steps);
  }
}
