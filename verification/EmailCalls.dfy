/** How often the provider is called for one key, however `deliver` calls overlap. */
module EmailCalls {
  import opened Common
  import opened Totals
  import opened Email

  // ---------------------------------------------------------------- what the calls in flight can still do

  /** How often a call can still reach the provider. */
  function Left(p: Phase): nat {
    match p
    case Attempting(_, n) => if n <= MAX_ATTEMPTS then MAX_ATTEMPTS + 1 - n else 0
    case Calling(_, n) => if n <= MAX_ATTEMPTS then MAX_ATTEMPTS + 1 - n else 0
    case Storing(_, n, _) => if n <= MAX_ATTEMPTS then MAX_ATTEMPTS - n else 0
    case Noting(_, n, _, retryable) => if retryable && n <= MAX_ATTEMPTS then MAX_ATTEMPTS - n else 0
    case Recording(_, _) => 0
  }

  predicate Of(calls: map<Id, Phase>, c: Id, key: Id) {
    c in calls && calls[c].key == key
  }

  function LeftWeight(calls: map<Id, Phase>, key: Id): nat -> nat {
    (c: nat) => if Of(calls, c, key) then Left(calls[c]) else 0
  }

  function CallWeight(calls: map<Id, Phase>, key: Id): nat -> nat {
    (c: nat) => if Of(calls, c, key) then 1 else 0
  }

  function CallingWeight(calls: map<Id, Phase>, key: Id): nat -> nat {
    (c: nat) => if Of(calls, c, key) && calls[c].Calling? then 1 else 0
  }

  /** How often the calls in flight for `key` can still reach the provider together. */
  function LeftOf(s: Db, key: Id): nat {
    Total(LeftWeight(s.calls, key), s.nextCall)
  }

  /** How many calls for `key` are in flight. */
  function Overlap(s: Db, key: Id): nat {
    Total(CallWeight(s.calls, key), s.nextCall)
  }

  /** How many calls for `key` have been counted and not yet made. */
  function CountedNotSent(s: Db, key: Id): nat {
    Total(CallingWeight(s.calls, key), s.nextCall)
  }

  // ---------------------------------------------------------------- the invariant

  ghost predicate PhaseOk(s: Db, c: Id) {
    c in s.calls ==> c < s.nextCall && s.calls[c].key in s.rows && (!s.calls[c].Recording? ==> 1 <= s.calls[c].n <= MAX_ATTEMPTS)
  }

  /** A row without a message has heard of no event and shows no success. */
  ghost predicate RowSound(row: Row) {
    row.message.None? ==> row.lastEventAt.None? && row.status in {Pending, Sending, Failed}
  }

  ghost predicate CallsOk(s: Db) {
    && (forall c :: PhaseOk(s, c))
    && (forall k :: k in s.sends ==> k in s.rows)
    && (forall k :: k in s.rows ==> RowSound(s.rows[k]))
    && (forall k :: RowOf(s, k).attempts == SendsOf(s, k) + CountedNotSent(s, k))
  }

  function LeftAt(s: Db, c: Id, key: Id): nat {
    if Of(s.calls, c, key) then Left(s.calls[c]) else 0
  }

  function CallAt(s: Db, c: Id, key: Id): nat {
    if Of(s.calls, c, key) then 1 else 0
  }

  function CallingAt(s: Db, c: Id, key: Id): nat {
    if Of(s.calls, c, key) && s.calls[c].Calling? then 1 else 0
  }

  ghost predicate OnlyMoves(s: Db, t: Db, c: Id) {
    forall d :: d != c ==> (d in s.calls <==> d in t.calls) && (d in s.calls ==> t.calls[d] == s.calls[d])
  }

  /** What a step of call `c` does for `key`, as far as `c` itself goes. */
  ghost predicate LocalBudget(s: Db, t: Db, c: Id, key: Id) {
    && t.nextCall == s.nextCall && OnlyMoves(s, t, c)
    && SendsOf(t, key) + LeftAt(t, c, key) <= SendsOf(s, key) + LeftAt(s, c, key)
    && SendsOf(s, key) <= SendsOf(t, key)
    && CallAt(t, c, key) <= CallAt(s, c, key)
    && RowOf(t, key).attempts + SendsOf(s, key) + CallingAt(s, c, key) == RowOf(s, key).attempts + SendsOf(t, key) + CallingAt(t, c, key)
    && (RowOf(s, key).message.Some? ==> RowOf(t, key).message.Some?)
  }

  lemma CountKeeps(s: Db, c: Id, begun: bool, key: Id)
    requires PhaseOk(s, c)
    ensures LocalBudget(s, DoCount(s, c, begun), c, key)
  {
  }

  lemma SendKeeps(s: Db, c: Id, answer: Answer, key: Id)
    requires PhaseOk(s, c)
    ensures LocalBudget(s, DoSend(s, c, answer), c, key)
  {
  }

  lemma StoreKeeps(s: Db, c: Id, stored: bool, key: Id)
    requires PhaseOk(s, c)
    ensures LocalBudget(s, DoStore(s, c, stored), c, key)
  {
  }

  lemma NoteKeeps(s: Db, c: Id, noted: bool, key: Id)
    requires PhaseOk(s, c)
    ensures LocalBudget(s, DoNote(s, c, noted), c, key)
  {
  }

  lemma RecordKeeps(s: Db, c: Id, recorded: bool, key: Id)
    requires PhaseOk(s, c)
    ensures LocalBudget(s, DoRecord(s, c, recorded), c, key)
  {
  }

  lemma HookKeeps(s: Db, h: Hook, key: Id)
    ensures var t := DoHook(s, h);
            && t.calls == s.calls && t.nextCall == s.nextCall && t.sends == s.sends
            && RowOf(t, key).attempts == RowOf(s, key).attempts && RowOf(t, key).message == RowOf(s, key).message
  {
  }

  /** What a step other than `Start` does to the figures of `key`: it adds nothing to what can still be sent. */
  ghost predicate Budget(s: Db, t: Db, key: Id) {
    && SendsOf(t, key) + LeftOf(t, key) <= SendsOf(s, key) + LeftOf(s, key)
    && SendsOf(s, key) <= SendsOf(t, key)
    && Overlap(t, key) <= Overlap(s, key)
    && RowOf(t, key).attempts + SendsOf(s, key) + CountedNotSent(s, key) == RowOf(s, key).attempts + SendsOf(t, key) + CountedNotSent(t, key)
    && (RowOf(s, key).message.Some? ==> RowOf(t, key).message.Some?)
  }

  lemma LocalIsEnough(s: Db, t: Db, c: Id, key: Id)
    requires LocalBudget(s, t, c, key) && c < s.nextCall
    ensures Budget(s, t, key)
  {
    TotalChange(LeftWeight(t.calls, key), LeftWeight(s.calls, key), s.nextCall, c);
    TotalChange(CallWeight(t.calls, key), CallWeight(s.calls, key), s.nextCall, c);
    TotalChange(CallingWeight(t.calls, key), CallingWeight(s.calls, key), s.nextCall, c);
  }

  lemma SameCallsSameFigures(s: Db, t: Db, key: Id)
    requires t.calls == s.calls && t.nextCall == s.nextCall
    ensures LeftOf(t, key) == LeftOf(s, key) && Overlap(t, key) == Overlap(s, key) && CountedNotSent(t, key) == CountedNotSent(s, key)
  {
  }

  lemma NewCallFigures(s: Db, t: Db, key: Id)
    requires t.nextCall == s.nextCall + 1 && OnlyMoves(s, t, s.nextCall)
    ensures LeftOf(t, key) == LeftOf(s, key) + LeftAt(t, s.nextCall, key)
    ensures Overlap(t, key) == Overlap(s, key) + CallAt(t, s.nextCall, key)
    ensures CountedNotSent(t, key) == CountedNotSent(s, key) + CallingAt(t, s.nextCall, key)
  {
    TotalSame(LeftWeight(t.calls, key), LeftWeight(s.calls, key), s.nextCall);
    TotalSame(CallWeight(t.calls, key), CallWeight(s.calls, key), s.nextCall);
    TotalSame(CallingWeight(t.calls, key), CallingWeight(s.calls, key), s.nextCall);
  }

  /** What the call is about to do once it has read its row. */
  function Opening(row: Row, key: Id, built: bool): Option<Phase> {
    if row.status == Sent || row.status == Delivered || row.message.Some? || row.attempts >= MAX_ATTEMPTS then None
    else if built then Some(Attempting(key, row.attempts + 1))
    else Some(Recording(key, Internal))
  }

  lemma StartOpens(s: Db, k: Id, built: bool)
    requires s.nextCall !in s.calls
    ensures var t := DoStart(s, k, built);
            var p := Opening(RowOf(s, k), k, built);
            && t.nextCall == s.nextCall + 1 && t.sends == s.sends && t.rows == s.rows[k := RowOf(s, k)]
            && t.calls == if p.Some? then s.calls[s.nextCall := p.value] else s.calls
  {
    assert s.calls - {s.nextCall} == s.calls;
  }

  /** Starting puts at most one more call in flight, with the attempts that the row has left. */
  lemma StartAdds(s: Db, k: Id, built: bool, key: Id)
    requires PhaseOk(s, s.nextCall)
    ensures var t := DoStart(s, k, built);
            && t.nextCall == s.nextCall + 1 && OnlyMoves(s, t, s.nextCall)
            && SendsOf(t, key) == SendsOf(s, key) && RowOf(t, key) == RowOf(s, key) && CallingAt(t, s.nextCall, key) == 0
            && LeftAt(t, s.nextCall, key) <= MAX_ATTEMPTS * CallAt(t, s.nextCall, key)
            && (LeftAt(t, s.nextCall, key) > 0 ==> RowOf(s, key).message.None?)
            && (LeftAt(t, s.nextCall, key) > 0 ==> LeftAt(t, s.nextCall, key) + RowOf(s, key).attempts == MAX_ATTEMPTS)
  {
    StartOpens(s, k, built);
  }

  // ---------------------------------------------------------------- every step keeps it

  lemma DeliverBudget(s: Db, e: CallStep, key: Id)
    requires !e.Start? && PhaseOk(s, e.call)
    ensures LocalBudget(s, DoDeliver(s, e), e.call, key)
    ensures e.call !in s.calls ==> DoDeliver(s, e) == s
  {
    match e
    case Count(c, begun) => CountKeeps(s, c, begun, key);
    case Send(c, answer) => SendKeeps(s, c, answer, key);
    case Store(c, stored) => StoreKeeps(s, c, stored, key);
    case Note(c, noted) => NoteKeeps(s, c, noted, key);
    case Record(c, recorded) => RecordKeeps(s, c, recorded, key);
  }

  lemma StepBudget(s: Db, e: Event, key: Id)
    requires CallsOk(s) && !(e.Deliver? && e.step.Start?)
    ensures Budget(s, Step(s, e), key)
  {
    match e
    case Tick(_) => SameCallsSameFigures(s, Step(s, e), key);
    case Deliver(d) =>
      assert PhaseOk(s, d.call);
      DeliverBudget(s, d, key);
      if d.call in s.calls { LocalIsEnough(s, DoDeliver(s, d), d.call, key); }
    case Webhook(h) =>
      HookKeeps(s, h, key);
      SameCallsSameFigures(s, DoHook(s, h), key);
  }

  /** What a step keeps of one call and of one row. */
  ghost predicate Keeps(t: Db, c: Id, k: Id) {
    PhaseOk(t, c) && (k in t.rows ==> RowSound(t.rows[k])) && (k in t.sends ==> k in t.rows)
  }

  lemma StartKeepsBoth(s: Db, key: Id, built: bool, c: Id, k: Id)
    requires Keeps(s, c, k)
    ensures Keeps(DoStart(s, key, built), c, k)
  {
  }

  lemma CountKeepsBoth(s: Db, d: Id, begun: bool, c: Id, k: Id)
    requires Keeps(s, c, k) && PhaseOk(s, d)
    ensures Keeps(DoCount(s, d, begun), c, k)
  {
  }

  lemma SendKeepsBoth(s: Db, d: Id, answer: Answer, c: Id, k: Id)
    requires Keeps(s, c, k) && PhaseOk(s, d)
    ensures Keeps(DoSend(s, d, answer), c, k)
  {
  }

  lemma StoreKeepsBoth(s: Db, d: Id, stored: bool, c: Id, k: Id)
    requires Keeps(s, c, k) && PhaseOk(s, d)
    ensures Keeps(DoStore(s, d, stored), c, k)
  {
  }

  lemma NoteKeepsBoth(s: Db, d: Id, noted: bool, c: Id, k: Id)
    requires Keeps(s, c, k) && PhaseOk(s, d)
    ensures Keeps(DoNote(s, d, noted), c, k)
  {
  }

  lemma RecordKeepsBoth(s: Db, d: Id, recorded: bool, c: Id, k: Id)
    requires Keeps(s, c, k) && PhaseOk(s, d)
    ensures Keeps(DoRecord(s, d, recorded), c, k)
  {
  }

  lemma DeliverKeepsBoth(s: Db, e: CallStep, c: Id, k: Id)
    requires Keeps(s, c, k) && (e.Start? || PhaseOk(s, e.call))
    ensures Keeps(DoDeliver(s, e), c, k)
  {
    match e
    case Start(key, built) => StartKeepsBoth(s, key, built, c, k);
    case Count(d, begun) => CountKeepsBoth(s, d, begun, c, k);
    case Send(d, answer) => SendKeepsBoth(s, d, answer, c, k);
    case Store(d, stored) => StoreKeepsBoth(s, d, stored, c, k);
    case Note(d, noted) => NoteKeepsBoth(s, d, noted, c, k);
    case Record(d, recorded) => RecordKeepsBoth(s, d, recorded, c, k);
  }

  lemma StepKeepsBoth(s: Db, e: Event, c: Id, k: Id)
    requires CallsOk(s)
    ensures Keeps(Step(s, e), c, k)
  {
    assert PhaseOk(s, c);
    match e
    case Tick(_) =>
    case Deliver(d) =>
      if !d.Start? { assert PhaseOk(s, d.call); }
      DeliverKeepsBoth(s, d, c, k);
    case Webhook(h) =>
  }

  lemma StepKeepsCalls(s: Db, e: Event)
    requires CallsOk(s)
    ensures CallsOk(Step(s, e))
  {
    var t := Step(s, e);
    forall c, k ensures Keeps(t, c, k) { StepKeepsBoth(s, e, c, k); }
    assert forall c :: PhaseOk(t, c) by { forall c ensures PhaseOk(t, c) { assert Keeps(t, c, 0); } }
    assert forall k :: (k in t.rows ==> RowSound(t.rows[k])) && (k in t.sends ==> k in t.rows) by {
      forall k ensures (k in t.rows ==> RowSound(t.rows[k])) && (k in t.sends ==> k in t.rows) { assert Keeps(t, 0, k); }
    }
    forall k ensures RowOf(t, k).attempts == SendsOf(t, k) + CountedNotSent(t, k) {
      assert RowOf(s, k).attempts == SendsOf(s, k) + CountedNotSent(s, k);
      if e.Deliver? && e.step.Start? {
        assert PhaseOk(s, s.nextCall);
        StartAdds(s, e.step.key, e.step.built, k);
        NewCallFigures(s, t, k);
      } else {
        StepBudget(s, e, k);
      }
    }
  }

  lemma {:induction false} RunKeepsCalls(s: Db, events: seq<Event>)
    requires CallsOk(s)
    ensures CallsOk(Run(s, events))
    decreases |events|
  {
    if events != [] {
      StepKeepsCalls(s, events[0]);
      RunKeepsCalls(Step(s, events[0]), events[1..]);
    }
  }

  // ---------------------------------------------------------------- the bound

  function Max(a: nat, b: nat): nat {
    if a < b then b else a
  }

  /** The most calls for `key` that are ever in flight together. */
  function Peak(s: Db, events: seq<Event>, key: Id): nat
    decreases |events|
  {
    if events == [] then Overlap(s, key) else Max(Overlap(s, key), Peak(Step(s, events[0]), events[1..], key))
  }

  lemma LeftAtMost(p: Phase)
    requires !p.Recording? ==> 1 <= p.n
    ensures Left(p) <= MAX_ATTEMPTS
  {
  }

  lemma LeftIsBounded(s: Db, key: Id)
    requires CallsOk(s)
    ensures LeftOf(s, key) <= MAX_ATTEMPTS * Overlap(s, key)
  {
    forall c: nat ensures LeftWeight(s.calls, key)(c) <= MAX_ATTEMPTS * CallWeight(s.calls, key)(c) {
      if Of(s.calls, c, key) {
        assert PhaseOk(s, c);
        LeftAtMost(s.calls[c]);
      }
    }
    TotalBound(LeftWeight(s.calls, key), CallWeight(s.calls, key), s.nextCall, MAX_ATTEMPTS);
  }

  lemma {:induction false} BudgetHolds(s: Db, events: seq<Event>, key: Id, peak: nat)
    requires CallsOk(s) && Peak(s, events, key) <= peak
    requires SendsOf(s, key) + LeftOf(s, key) <= MAX_ATTEMPTS * peak
    ensures SendsOf(Run(s, events), key) <= MAX_ATTEMPTS * peak
    decreases |events|
  {
    if events != [] {
      var e := events[0];
      StepKeepsCalls(s, e);
      if e.Deliver? && e.step.Start? {
        assert PhaseOk(s, s.nextCall);
        StartAdds(s, e.step.key, e.step.built, key);
        NewCallFigures(s, Step(s, e), key);
        LeftIsBounded(s, key);
      } else {
        StepBudget(s, e, key);
      }
      BudgetHolds(Step(s, e), events[1..], key, peak);
    }
  }

  /** In every run the provider is called for a key at most three times as often as calls for it overlap. */
  lemma SendsBoundedByOverlap(events: seq<Event>, key: Id)
    ensures SendsOf(Run(Empty(), events), key) <= MAX_ATTEMPTS * Peak(Empty(), events, key)
  {
    BudgetHolds(Empty(), events, key, Peak(Empty(), events, key));
  }

  /** Calls that do not overlap call the provider at most three times, and exactly as often as the row says between calls. */
  lemma AtMostThreeSends(events: seq<Event>, key: Id)
    requires Peak(Empty(), events, key) <= 1
    ensures SendsOf(Run(Empty(), events), key) <= MAX_ATTEMPTS
  {
    SendsBoundedByOverlap(events, key);
  }

  lemma SendsAreCounted(events: seq<Event>, key: Id)
    ensures var s := Run(Empty(), events); RowOf(s, key).attempts == SendsOf(s, key) + CountedNotSent(s, key)
  {
    RunKeepsCalls(Empty(), events);
  }

  // ---------------------------------------------------------------- the bound is reached

  function Pass(c: Id): seq<Event> {
    [Deliver(Count(c, true)), Deliver(Send(c, Refused(0, true))), Deliver(Note(c, true))]
  }

  function Fails(c: Id): seq<Event> {
    Pass(c) + (Pass(c) + Pass(c))
  }

  /** `k` calls start, and then each fails three times. */
  function StartAll(key: Id, k: nat): seq<Event> {
    if k == 0 then [] else StartAll(key, k - 1) + [Deliver(Start(key, true))]
  }

  function FailAll(k: nat): seq<Event> {
    if k == 0 then [] else FailAll(k - 1) + Fails(k - 1)
  }

  lemma RunOne(s: Db, e: Event)
    ensures Run(s, [e]) == Step(s, e)
  {
    assert Run(Step(s, e), [e][1..]) == Step(s, e);
  }

  lemma RunTwo(s: Db, d: Event, e: Event)
    ensures Run(s, [d, e]) == Step(Step(s, d), e)
  {
    assert [d, e][1..] == [e];
    RunOne(Step(s, d), e);
  }

  lemma RunThree(s: Db, d: Event, e: Event, f: Event)
    ensures Run(s, [d, e, f]) == Step(Step(Step(s, d), e), f)
  {
    assert [d, e, f][1..] == [e, f];
    RunTwo(Step(s, d), e, f);
  }

  /** Only `c` has moved, from `s` to `t`, to phase `p`, and `n` more sends were made for `key`. */
  ghost predicate Moved(s: Db, t: Db, c: Id, p: Phase, key: Id, n: nat) {
    t.calls == s.calls[c := p] && t.nextCall == s.nextCall && SendsOf(t, key) == SendsOf(s, key) + n
  }

  lemma CountMoved(s: Db, c: Id, key: Id, n: nat)
    requires c in s.calls && s.calls[c] == Attempting(key, n)
    ensures Moved(s, DoCount(s, c, true), c, Calling(key, n), key, 0)
  {
  }

  lemma SendMoved(s: Db, c: Id, key: Id, n: nat)
    requires c in s.calls && s.calls[c] == Calling(key, n)
    ensures Moved(s, DoSend(s, c, Refused(0, true)), c, Noting(key, n, Provider(0), true), key, 1)
  {
  }

  lemma NoteMoved(s: Db, c: Id, key: Id, n: nat)
    requires c in s.calls && s.calls[c] == Noting(key, n, Provider(0), true) && n <= MAX_ATTEMPTS
    ensures Moved(s, DoNote(s, c, true), c, if n < MAX_ATTEMPTS then Attempting(key, n + 1) else Recording(key, Provider(0)), key, 0)
  {
  }

  lemma MovedTwice(s: Db, t: Db, u: Db, c: Id, p: Phase, q: Phase, key: Id, m: nat, n: nat)
    requires Moved(s, t, c, p, key, m) && Moved(t, u, c, q, key, n)
    ensures Moved(s, u, c, q, key, m + n)
  {
  }

  lemma PassSends(s: Db, c: Id, key: Id, n: nat)
    requires c in s.calls && s.calls[c] == Attempting(key, n) && n <= MAX_ATTEMPTS
    ensures Moved(s, Run(s, Pass(c)), c, if n < MAX_ATTEMPTS then Attempting(key, n + 1) else Recording(key, Provider(0)), key, 1)
  {
    RunThree(s, Deliver(Count(c, true)), Deliver(Send(c, Refused(0, true))), Deliver(Note(c, true)));
    var t := DoCount(s, c, true);
    var u := DoSend(t, c, Refused(0, true));
    var last := if n < MAX_ATTEMPTS then Attempting(key, n + 1) else Recording(key, Provider(0));
    CountMoved(s, c, key, n);
    SendMoved(t, c, key, n);
    MovedTwice(s, t, u, c, Calling(key, n), Noting(key, n, Provider(0), true), key, 0, 1);
    NoteMoved(u, c, key, n);
    MovedTwice(s, u, DoNote(u, c, true), c, Noting(key, n, Provider(0), true), last, key, 1, 0);
  }

  lemma FailsSend(s: Db, c: Id, key: Id)
    requires c in s.calls && s.calls[c] == Attempting(key, 1)
    ensures Moved(s, Run(s, Fails(c)), c, Recording(key, Provider(0)), key, MAX_ATTEMPTS)
  {
    var t := Run(s, Pass(c));
    var u := Run(t, Pass(c));
    RunAppend(s, Pass(c), Pass(c) + Pass(c));
    RunAppend(t, Pass(c), Pass(c));
    PassSends(s, c, key, 1);
    PassSends(t, c, key, 2);
    PassSends(u, c, key, 3);
  }

  ghost predicate AllAttempting(s: Db, key: Id, from: nat, k: nat) {
    s.nextCall == k && forall c :: from <= c < k ==> c in s.calls && s.calls[c] == Attempting(key, 1)
  }

  lemma {:induction false} AfterStarts(key: Id, k: nat)
    ensures var s := Run(Empty(), StartAll(key, k));
            AllAttempting(s, key, 0, k) && SendsOf(s, key) == 0 && RowOf(s, key) == Fresh()
  {
    if k > 0 {
      AfterStarts(key, k - 1);
      var s := Run(Empty(), StartAll(key, k - 1));
      RunAppend(Empty(), StartAll(key, k - 1), [Deliver(Start(key, true))]);
      RunOne(s, Deliver(Start(key, true)));
    }
  }

  lemma {:induction false} AfterFails(s: Db, key: Id, j: nat, k: nat)
    requires j <= k && AllAttempting(s, key, 0, k)
    ensures var t := Run(s, FailAll(j)); AllAttempting(t, key, j, k) && SendsOf(t, key) == SendsOf(s, key) + MAX_ATTEMPTS * j
    decreases j
  {
    if j > 0 {
      AfterFails(s, key, j - 1, k);
      RunAppend(s, FailAll(j - 1), Fails(j - 1));
      FailsSend(Run(s, FailAll(j - 1)), j - 1, key);
    }
  }

  function Starts(events: seq<Event>): nat
    decreases |events|
  {
    if events == [] then 0 else Starts(events[1..]) + if events[0].Deliver? && events[0].step.Start? then 1 else 0
  }

  lemma {:induction false} StartsAppend(a: seq<Event>, b: seq<Event>)
    ensures Starts(a + b) == Starts(a) + Starts(b)
    decreases |a|
  {
    if a == [] {
      assert a + b == b;
    } else {
      assert (a + b)[1..] == a[1..] + b;
      StartsAppend(a[1..], b);
    }
  }

  lemma {:induction false} StartsOfAll(key: Id, k: nat)
    ensures Starts(StartAll(key, k)) == k && Starts(FailAll(k)) == 0
  {
    if k > 0 {
      StartsOfAll(key, k - 1);
      var start := [Deliver(Start(key, true))];
      StartsAppend(StartAll(key, k - 1), start);
      assert start[1..] == [];
      StartsAppend(FailAll(k - 1), Fails(k - 1));
      StartsAppend(Pass(k - 1), Pass(k - 1) + Pass(k - 1));
      StartsAppend(Pass(k - 1), Pass(k - 1));
      PassStartsNothing(k - 1);
    }
  }

  lemma PassStartsNothing(c: Id)
    ensures Starts(Pass(c)) == 0
  {
    var p := Pass(c);
    assert Starts(p[1..][1..][1..]) == 0;
    assert Starts(p[1..][1..]) == 0;
    assert Starts(p[1..]) == 0;
  }

  lemma {:induction false} PeakAtMostStarts(s: Db, events: seq<Event>, key: Id)
    requires CallsOk(s)
    ensures Peak(s, events, key) <= Overlap(s, key) + Starts(events)
    decreases |events|
  {
    if events != [] {
      var e := events[0];
      StepKeepsCalls(s, e);
      PeakAtMostStarts(Step(s, e), events[1..], key);
      if e.Deliver? && e.step.Start? {
        assert PhaseOk(s, s.nextCall);
        StartAdds(s, e.step.key, e.step.built, key);
        NewCallFigures(s, Step(s, e), key);
      } else {
        StepBudget(s, e, key);
      }
    }
  }

  /** The bound is reached for every number of overlapping calls: two of them can send six times. */
  lemma BoundIsReached(key: Id, k: nat)
    ensures var events := StartAll(key, k) + FailAll(k);
            Peak(Empty(), events, key) == k && SendsOf(Run(Empty(), events), key) == MAX_ATTEMPTS * k
  {
    var events := StartAll(key, k) + FailAll(k);
    AfterStarts(key, k);
    AfterFails(Run(Empty(), StartAll(key, k)), key, k, k);
    RunAppend(Empty(), StartAll(key, k), FailAll(k));
    StartsOfAll(key, k);
    StartsAppend(StartAll(key, k), FailAll(k));
    PeakAtMostStarts(Empty(), events, key);
    SendsBoundedByOverlap(events, key);
  }

  // ---------------------------------------------------------------- after a success

  ghost predicate SendsAgain(s: Db, key: Id) {
    exists events :: SendsOf(Run(s, events), key) > SendsOf(s, key)
  }

  lemma {:induction false} NothingAdded(s: Db, events: seq<Event>, key: Id)
    requires CallsOk(s) && RowOf(s, key).message.Some?
    ensures SendsOf(Run(s, events), key) <= SendsOf(s, key) + LeftOf(s, key)
    decreases |events|
  {
    if events != [] {
      var e := events[0];
      StepKeepsCalls(s, e);
      if e.Deliver? && e.step.Start? {
        assert PhaseOk(s, s.nextCall);
        StartAdds(s, e.step.key, e.step.built, key);
        NewCallFigures(s, Step(s, e), key);
      } else {
        StepBudget(s, e, key);
      }
      NothingAdded(Step(s, e), events[1..], key);
    }
  }

  lemma NothingLeft(s: Db, key: Id)
    requires forall c :: Of(s.calls, c, key) ==> Left(s.calls[c]) == 0
    ensures LeftOf(s, key) == 0
  {
    var zero: nat -> nat := (c: nat) => 0;
    TotalSame(LeftWeight(s.calls, key), zero, s.nextCall);
    TotalZero(s.nextCall);
  }

  lemma {:induction false} TotalZero(n: nat)
    ensures Total((c: nat) => 0, n) == 0
  {
    if n > 0 { TotalZero(n - 1); }
  }

  lemma SendsNow(s: Db, c: Id)
    requires c in s.calls && s.calls[c].Calling?
    ensures SendsOf(DoSend(s, c, Refused(0, false)), s.calls[c].key) == SendsOf(s, s.calls[c].key) + 1
  {
  }

  lemma CountsNow(s: Db, c: Id)
    requires c in s.calls && s.calls[c].Attempting?
    ensures var t := DoCount(s, c, true);
            c in t.calls && t.calls[c].Calling? && t.calls[c].key == s.calls[c].key && t.sends == s.sends
  {
  }

  lemma RetriesNow(s: Db, c: Id)
    requires c in s.calls && s.calls[c].Noting? && s.calls[c].retryable && s.calls[c].n < MAX_ATTEMPTS
    ensures var t := DoNote(s, c, true);
            c in t.calls && t.calls[c].Attempting? && t.calls[c].key == s.calls[c].key && t.sends == s.sends
  {
  }

  lemma Again(s: Db, t: Db, events: seq<Event>, key: Id)
    requires t == Run(s, events) && SendsOf(t, key) > SendsOf(s, key)
    ensures SendsAgain(s, key)
  {
  }

  lemma AttemptingSends(s: Db, c: Id)
    requires c in s.calls && s.calls[c].Attempting?
    ensures SendsOf(Run(s, [Deliver(Count(c, true)), Deliver(Send(c, Refused(0, false)))]), s.calls[c].key) > SendsOf(s, s.calls[c].key)
  {
    RunTwo(s, Deliver(Count(c, true)), Deliver(Send(c, Refused(0, false))));
    CountsNow(s, c);
    SendsNow(DoCount(s, c, true), c);
  }

  lemma NotingSends(s: Db, c: Id)
    requires c in s.calls && s.calls[c].Noting? && s.calls[c].retryable && s.calls[c].n < MAX_ATTEMPTS
    ensures SendsOf(Run(s, [Deliver(Note(c, true)), Deliver(Count(c, true)), Deliver(Send(c, Refused(0, false)))]), s.calls[c].key)
            > SendsOf(s, s.calls[c].key)
  {
    var events := [Deliver(Note(c, true)), Deliver(Count(c, true)), Deliver(Send(c, Refused(0, false)))];
    RetriesNow(s, c);
    AttemptingSends(DoNote(s, c, true), c);
    assert events[1..] == [Deliver(Count(c, true)), Deliver(Send(c, Refused(0, false)))];
    assert Run(s, events) == Run(DoNote(s, c, true), events[1..]);
  }

  /** A call with attempts left does reach the provider if nothing else happens. */
  lemma CanSend(s: Db, c: Id)
    requires PhaseOk(s, c) && c in s.calls && Left(s.calls[c]) > 0
    ensures SendsAgain(s, s.calls[c].key)
  {
    var p := s.calls[c];
    var send, count, note := Deliver(Send(c, Refused(0, false))), Deliver(Count(c, true)), Deliver(Note(c, true));
    match p
    case Calling(_, _) =>
      RunOne(s, send);
      SendsNow(s, c);
      Again(s, DoSend(s, c, Refused(0, false)), [send], p.key);
    case Attempting(_, _) =>
      AttemptingSends(s, c);
      Again(s, Run(s, [count, send]), [count, send], p.key);
    case Noting(_, _, _, _) =>
      NotingSends(s, c);
      Again(s, Run(s, [note, count, send]), [note, count, send], p.key);
    case Storing(_, _, _) => StoringSends(s, c);
  }

  lemma StoringSends(s: Db, c: Id)
    requires c in s.calls && s.calls[c].Storing? && s.calls[c].n < MAX_ATTEMPTS
    ensures SendsAgain(s, s.calls[c].key)
  {
    var t := DoStore(s, c, false);
    assert t.calls[c] == Noting(s.calls[c].key, s.calls[c].n, Network, true) && t.sends == s.sends;
    NotingSends(t, c);
    var rest := [Deliver(Note(c, true)), Deliver(Count(c, true)), Deliver(Send(c, Refused(0, false)))];
    var events := [Deliver(Store(c, false))] + rest;
    assert events[1..] == rest;
    Again(s, Run(t, rest), events, s.calls[c].key);
  }

  /** Once a success is recorded, the provider is called again for the key if and only if a call then in flight has attempts left. */
  lemma SendsAgainExactlyWhen(s: Db, key: Id)
    requires CallsOk(s) && RowOf(s, key).message.Some?
    ensures SendsAgain(s, key) <==> exists c :: Of(s.calls, c, key) && Left(s.calls[c]) > 0
  {
    if c :| Of(s.calls, c, key) && Left(s.calls[c]) > 0 {
      assert PhaseOk(s, c);
      CanSend(s, c);
    } else {
      NothingLeft(s, key);
      forall events ensures SendsOf(Run(s, events), key) <= SendsOf(s, key) { NothingAdded(s, events, key); }
    }
  }
}
