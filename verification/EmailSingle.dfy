/** One `deliver` call by itself: its steps, undisturbed, are the loop of the service. */
module EmailSingle {
  import opened Common
  import opened Email
  import opened EmailCalls

  // ---------------------------------------------------------------- the steps of a call

  function PassSteps(c: Id, t: Try): seq<Event> {
    [Deliver(Count(c, t.begun)), Deliver(Send(c, t.answer)), Deliver(Store(c, t.stored)), Deliver(Note(c, t.noted))]
  }

  function TrySteps(c: Id, n: nat, tries: Tries): seq<Event>
    requires n >= 1
    decreases MAX_ATTEMPTS + 1 - n
  {
    if n > MAX_ATTEMPTS then [] else PassSteps(c, tries[n - 1]) + TrySteps(c, n + 1, tries)
  }

  /** The steps of a call that finds `attempts` in its row. */
  function CallSteps(c: Id, key: Id, attempts: nat, call: Call): seq<Event> {
    [Deliver(Start(key, call.built))] + (TrySteps(c, attempts + 1, call.tries) + [Deliver(Record(c, call.recorded))])
  }

  /** From `s`, only the call `c` and the row of its key have moved: to phase `p` and to `row`, after `k` sends. */
  ghost predicate At(s: Db, u: Db, c: Id, key: Id, row: Row, k: nat, p: Phase) {
    && u.clock == s.clock && u.seen == s.seen && u.nextCall == s.nextCall && u.reports == s.reports
    && u.rows == s.rows[key := row] && SendsOf(u, key) == SendsOf(s, key) + k && u.calls == s.calls[c := p]
  }

  /** The call has reported success. */
  ghost predicate Done(s: Db, u: Db, c: Id, key: Id, row: Row, k: nat) {
    && u.clock == s.clock && u.seen == s.seen && u.nextCall == s.nextCall && u.reports == s.reports[c := true]
    && u.rows == s.rows[key := row] && SendsOf(u, key) == SendsOf(s, key) + k && u.calls == s.calls - {c}
  }

  /** What a call has come to: it waits to record `thrown`, or it has reported success. */
  ghost predicate Reached(s: Db, u: Db, c: Id, key: Id, r: Tried) {
    if r.sent then r.thrown.None? && Done(s, u, c, key, r.row, r.sends)
    else r.thrown.Some? && At(s, u, c, key, r.row, r.sends, Recording(key, r.thrown.value))
  }

  predicate GoesOn(t: Try, n: nat) {
    t.begun && !(t.answer.Accepted? && t.stored) && t.noted && Retryable(t) && n < MAX_ATTEMPTS
  }

  lemma CountMoves(s: Db, u: Db, c: Id, key: Id, row: Row, k: nat, n: nat, begun: bool)
    requires At(s, u, c, key, row, k, Attempting(key, n))
    ensures var v := DoCount(u, c, begun);
            if begun then At(s, v, c, key, Counted(row), k, Calling(key, n)) else At(s, v, c, key, row, k, Recording(key, Internal))
  {
  }

  lemma SendMoves(s: Db, u: Db, c: Id, key: Id, row: Row, k: nat, n: nat, answer: Answer)
    requires At(s, u, c, key, row, k, Calling(key, n))
    ensures var v := DoSend(u, c, answer);
            match answer
            case Accepted(m) => At(s, v, c, key, row, k + 1, Storing(key, n, m))
            case Refused(code, retryable) => At(s, v, c, key, row, k + 1, Noting(key, n, Provider(code), retryable))
  {
  }

  lemma StoreMoves(s: Db, u: Db, c: Id, key: Id, row: Row, k: nat, n: nat, m: Id, stored: bool)
    requires At(s, u, c, key, row, k, Storing(key, n, m))
    ensures var v := DoStore(u, c, stored);
            if stored then Done(s, v, c, key, Stored(row, m, s.clock), k) else At(s, v, c, key, row, k, Noting(key, n, Network, true))
  {
  }

  lemma NoteMoves(s: Db, u: Db, c: Id, key: Id, row: Row, k: nat, n: nat, cause: Error, retryable: bool, noted: bool)
    requires At(s, u, c, key, row, k, Noting(key, n, cause, retryable))
    ensures var v := DoNote(u, c, noted);
            var final := !retryable || n >= MAX_ATTEMPTS;
            if !noted then At(s, v, c, key, row, k, Recording(key, Internal))
            else At(s, v, c, key, Noted(row, cause, retryable, final, s.clock), k,
                    if final then Recording(key, cause) else Attempting(key, n + 1))
  {
  }

  lemma RunPass(s: Db, c: Id, t: Try)
    ensures Run(s, PassSteps(c, t)) == DoNote(DoStore(DoSend(DoCount(s, c, t.begun), c, t.answer), c, t.stored), c, t.noted)
  {
    var p := PassSteps(c, t);
    assert p[1..] == [Deliver(Send(c, t.answer)), Deliver(Store(c, t.stored)), Deliver(Note(c, t.noted))];
    RunThree(DoCount(s, c, t.begun), Deliver(Send(c, t.answer)), Deliver(Store(c, t.stored)), Deliver(Note(c, t.noted)));
  }

  /** Counting and sending, and storing if the message was accepted: a success, or an error to note. */
  lemma AnswerMoves(s: Db, c: Id, key: Id, n: nat, t: Try)
    requires c in s.calls && s.calls[c] == Attempting(key, n) && key in s.rows && t.begun
    ensures var v := DoStore(DoSend(DoCount(s, c, true), c, t.answer), c, t.stored);
            var row := Counted(RowOf(s, key));
            if t.answer.Accepted? && t.stored then Done(s, v, c, key, Stored(row, t.answer.message, s.clock), 1)
            else At(s, v, c, key, row, 1, Noting(key, n, Cause(t), Retryable(t)))
  {
    var row := RowOf(s, key);
    assert s.rows[key := row] == s.rows && s.calls[c := s.calls[c]] == s.calls;
    CountMoves(s, s, c, key, row, 0, n, true);
    var a := DoCount(s, c, true);
    SendMoves(s, a, c, key, Counted(row), 0, n, t.answer);
    if t.answer.Accepted? {
      StoreMoves(s, DoSend(a, c, t.answer), c, key, Counted(row), 1, n, t.answer.message, t.stored);
    }
  }

  lemma PassGoesOn(s: Db, c: Id, key: Id, n: nat, t: Try)
    requires c in s.calls && s.calls[c] == Attempting(key, n) && key in s.rows && GoesOn(t, n)
    ensures At(s, Run(s, PassSteps(c, t)), c, key, Noted(Counted(RowOf(s, key)), Cause(t), true, false, s.clock), 1, Attempting(key, n + 1))
  {
    RunPass(s, c, t);
    AnswerMoves(s, c, key, n, t);
    var v := DoStore(DoSend(DoCount(s, c, true), c, t.answer), c, t.stored);
    NoteMoves(s, v, c, key, Counted(RowOf(s, key)), 1, n, Cause(t), true, true);
  }

  lemma PassEnds(s: Db, c: Id, key: Id, n: nat, tries: Tries)
    requires c in s.calls && s.calls[c] == Attempting(key, n) && 1 <= n <= MAX_ATTEMPTS && !GoesOn(tries[n - 1], n)
    requires key in s.rows
    ensures Reached(s, Run(s, PassSteps(c, tries[n - 1])), c, key, TryFrom(RowOf(s, key), n, tries, s.clock))
  {
    var t := tries[n - 1];
    RunPass(s, c, t);
    if !t.begun {
      assert s.rows[key := s.rows[key]] == s.rows && s.calls[c := s.calls[c]] == s.calls;
      CountMoves(s, s, c, key, s.rows[key], 0, n, false);
    } else {
      AnswerMoves(s, c, key, n, t);
      if !(t.answer.Accepted? && t.stored) {
        var v := DoStore(DoSend(DoCount(s, c, true), c, t.answer), c, t.stored);
        NoteMoves(s, v, c, key, Counted(RowOf(s, key)), 1, n, Cause(t), Retryable(t), t.noted);
      }
    }
  }

  /** A call that is done, or only waits to record its failure, is not moved by attempt steps. */
  lemma {:induction false} Idle(s: Db, c: Id, n: nat, tries: Tries)
    requires n >= 1 && (c in s.calls ==> s.calls[c].Recording?)
    ensures Run(s, TrySteps(c, n, tries)) == s
    decreases MAX_ATTEMPTS + 1 - n
  {
    if n <= MAX_ATTEMPTS {
      RunAppend(s, PassSteps(c, tries[n - 1]), TrySteps(c, n + 1, tries));
      RunPass(s, c, tries[n - 1]);
      Idle(s, c, n + 1, tries);
    }
  }

  lemma {:induction false} TryIsARun(s: Db, c: Id, key: Id, n: nat, tries: Tries)
    requires c in s.calls && s.calls[c] == Attempting(key, n) && 1 <= n <= MAX_ATTEMPTS && key in s.rows
    ensures Reached(s, Run(s, TrySteps(c, n, tries)), c, key, TryFrom(RowOf(s, key), n, tries, s.clock))
    decreases MAX_ATTEMPTS + 1 - n
  {
    var t := tries[n - 1];
    var u := Run(s, PassSteps(c, t));
    RunAppend(s, PassSteps(c, t), TrySteps(c, n + 1, tries));
    if GoesOn(t, n) {
      PassGoesOn(s, c, key, n, t);
      TryIsARun(u, c, key, n + 1, tries);
      ReachedAfterPass(s, u, Run(u, TrySteps(c, n + 1, tries)), c, key, n, tries);
    } else {
      PassEnds(s, c, key, n, tries);
      Idle(u, c, n + 1, tries);
    }
  }

  lemma ReachedAfterPass(s: Db, u: Db, v: Db, c: Id, key: Id, n: nat, tries: Tries)
    requires c in s.calls && 1 <= n < MAX_ATTEMPTS && GoesOn(tries[n - 1], n)
    requires At(s, u, c, key, Noted(Counted(RowOf(s, key)), Cause(tries[n - 1]), true, false, s.clock), 1, Attempting(key, n + 1))
    requires Reached(u, v, c, key, TryFrom(RowOf(u, key), n + 1, tries, u.clock))
    ensures Reached(s, v, c, key, TryFrom(RowOf(s, key), n, tries, s.clock))
  {
    var r := TryFrom(RowOf(u, key), n + 1, tries, u.clock);
    assert TryFrom(RowOf(s, key), n, tries, s.clock) == r.(sends := r.sends + 1);
    assert s.calls[c := Attempting(key, n + 1)] - {c} == s.calls - {c};
  }

  /** The state after the call has recorded whatever it threw. */
  ghost predicate Over(s: Db, u: Db, c: Id, key: Id, r: Tried) {
    && u.rows == s.rows[key := r.row] && SendsOf(u, key) == SendsOf(s, key) + r.sends
    && u.calls == s.calls - {c} && u.reports == s.reports[c := r.sent]
  }

  lemma RecordMoves(s: Db, u: Db, c: Id, key: Id, r: Tried, recorded: bool)
    requires Reached(s, u, c, key, r)
    ensures Over(s, DoRecord(u, c, recorded), c, key,
                 if r.thrown.Some? then r.(row := FailedBy(r.row, r.thrown.value, recorded, s.clock)) else r)
  {
  }

  /** The call after its upsert. */
  lemma RestIsARun(t: Db, c: Id, key: Id, n: nat, call: Call)
    requires c in t.calls && key in t.rows && n == t.rows[key].attempts + 1
    requires t.calls[c] == if call.built && n <= MAX_ATTEMPTS then Attempting(key, n) else Recording(key, Internal)
    requires n <= MAX_ATTEMPTS && t.rows[key].message.None? && t.rows[key].status != Sent && t.rows[key].status != Delivered
    ensures Over(t, Run(t, TrySteps(c, n, call.tries) + [Deliver(Record(c, call.recorded))]), c, key, DeliverRow(t.rows[key], call, t.clock))
  {
    var tries := TrySteps(c, n, call.tries);
    var u := Run(t, tries);
    RunAppend(t, tries, [Deliver(Record(c, call.recorded))]);
    RunOne(u, Deliver(Record(c, call.recorded)));
    if call.built {
      TryIsARun(t, c, key, n, call.tries);
      RecordMoves(t, u, c, key, TryFrom(t.rows[key], n, call.tries, t.clock), call.recorded);
    } else {
      Idle(t, c, n, call.tries);
      assert t.rows[key := t.rows[key]] == t.rows && t.calls[c := t.calls[c]] == t.calls;
      RecordMoves(t, u, c, key, Tried(t.rows[key], 0, false, Some(Internal)), call.recorded);
    }
  }

  lemma NothingToDo(t: Db, c: Id, n: nat, call: Call)
    requires n >= 1 && c !in t.calls
    ensures Run(t, TrySteps(c, n, call.tries) + [Deliver(Record(c, call.recorded))]) == t
  {
    RunAppend(t, TrySteps(c, n, call.tries), [Deliver(Record(c, call.recorded))]);
    Idle(t, c, n, call.tries);
    RunOne(t, Deliver(Record(c, call.recorded)));
  }

  /** The row that the call reads lets it do nothing. */
  predicate Settled(row: Row) {
    row.status == Sent || row.status == Delivered || row.message.Some? || row.attempts >= MAX_ATTEMPTS
  }

  lemma StartSettled(s: Db, key: Id, built: bool)
    requires s.nextCall !in s.calls && Settled(RowOf(s, key))
    ensures var row := RowOf(s, key);
            Over(s, DoStart(s, key, built), s.nextCall, key, Tried(row, 0, row.status == Sent || row.status == Delivered, None))
            && s.nextCall !in DoStart(s, key, built).calls
  {
  }

  lemma StartGoes(s: Db, key: Id, built: bool)
    requires s.nextCall !in s.calls && !Settled(RowOf(s, key))
    ensures var t := DoStart(s, key, built);
            && t.clock == s.clock && t.sends == s.sends && t.reports == s.reports && t.rows == s.rows[key := RowOf(s, key)]
            && t.calls == s.calls[s.nextCall := if built then Attempting(key, RowOf(s, key).attempts + 1) else Recording(key, Internal)]
  {
  }

  /** Undisturbed, the steps of a call leave what `deliver` computes from the row, and its report. */
  lemma CallIsARun(s: Db, key: Id, call: Call)
    requires s.nextCall !in s.calls
    ensures Over(s, Run(s, CallSteps(s.nextCall, key, RowOf(s, key).attempts, call)), s.nextCall, key,
                 DeliverRow(RowOf(s, key), call, s.clock))
  {
    var c, n := s.nextCall, RowOf(s, key).attempts + 1;
    var t := DoStart(s, key, call.built);
    var rest := TrySteps(c, n, call.tries) + [Deliver(Record(c, call.recorded))];
    var events := CallSteps(c, key, n - 1, call);
    assert events[0] == Deliver(Start(key, call.built)) && events[1..] == rest;
    assert Run(s, events) == Run(t, rest);
    if Settled(RowOf(s, key)) {
      StartSettled(s, key, call.built);
      NothingToDo(t, c, n, call);
    } else {
      StartGoes(s, key, call.built);
      RestIsARun(t, c, key, n, call);
      OverFromStart(s, t, Run(t, rest), c, key, DeliverRow(RowOf(s, key), call, s.clock));
    }
  }

  lemma OverFromStart(s: Db, t: Db, u: Db, c: Id, key: Id, r: Tried)
    requires c !in s.calls && c in t.calls && t.calls == s.calls[c := t.calls[c]] && t.reports == s.reports && t.sends == s.sends
    requires t.rows == s.rows[key := RowOf(s, key)] && Over(t, u, c, key, r)
    ensures Over(s, u, c, key, r)
  {
    assert t.calls - {c} == s.calls - {c};
    assert t.rows[key := r.row] == s.rows[key := r.row];
  }

  // ---------------------------------------------------------------- what one call achieves

  /** The row records the success of its last attempt: the message the provider accepted, sent now, and no error. */
  ghost predicate Recorded(row: Row, tries: Tries, now: Time) {
    && 1 <= row.attempts <= MAX_ATTEMPTS && row.message.Some?
    && tries[row.attempts - 1].answer == Accepted(row.message.value)
    && row.sentAt == Some(now) && row.failedAt.None? && row.error.None?
  }

  lemma {:induction false} TryFromCounts(row: Row, n: nat, tries: Tries, now: Time)
    requires RowSound(row) && row.message.None? && n == row.attempts + 1
    ensures var r := TryFrom(row, n, tries, now);
            && RowSound(r.row) && r.row.attempts == row.attempts + r.sends
            && (r.sent <==> r.row.message.Some?) && (r.sent ==> r.row.status == Sent && r.thrown.None?)
            && (r.sent ==> Recorded(r.row, tries, now))
            && (n <= MAX_ATTEMPTS && !r.sent ==> r.thrown.Some?)
    decreases MAX_ATTEMPTS + 1 - n
  {
    if n <= MAX_ATTEMPTS && GoesOn(tries[n - 1], n) {
      TryFromCounts(Noted(Counted(row), Cause(tries[n - 1]), true, false, now), n + 1, tries, now);
    }
  }

  /**
    A call counts each of its calls to the provider, reports success exactly when the row records
    one, and otherwise leaves the row failed if it could record that and had anything to try.
  */
  lemma DeliverRowCounts(row: Row, call: Call, now: Time)
    requires RowSound(row)
    ensures var r := DeliverRow(row, call, now);
            && RowSound(r.row) && r.row.attempts == row.attempts + r.sends
            && (r.sent <==> r.row.status == Sent || r.row.status == Delivered)
            && (r.sent ==> r.row.message.Some?)
            && (r.sent && row.message.None? ==> Recorded(r.row, call.tries, now))
            && (row.message.Some? ==> r.row == row && r.sends == 0)
            && (row.message.None? && row.attempts < MAX_ATTEMPTS && !r.sent && call.recorded
                ==> r.row.status == Failed && r.row.failedAt == Some(now))
  {
    if row.message.None? && row.attempts < MAX_ATTEMPTS && call.built {
      TryFromCounts(row, row.attempts + 1, call.tries, now);
    }
  }

  /** An attempt whose error may be retried: refused for now, or accepted and not stored. */
  predicate RetryableError(t: Try) {
    t.begun && t.noted && match t.answer case Accepted(_) => !t.stored case Refused(_, retryable) => retryable
  }

  /** With only such errors every attempt left is made. */
  lemma {:induction false} RetriesUntilTheLimit(row: Row, n: nat, tries: Tries, now: Time)
    requires 1 <= n <= 4
    requires forall i :: n - 1 <= i < 3 ==> RetryableError(tries[i])
    ensures TryFrom(row, n, tries, now).sends == 4 - n && !TryFrom(row, n, tries, now).sent
    decreases 4 - n
  {
    if n <= MAX_ATTEMPTS { assert RetryableError(tries[n - 1]); }
    if n < MAX_ATTEMPTS {
      RetriesUntilTheLimit(Noted(Counted(row), Cause(tries[n - 1]), true, false, now), n + 1, tries, now);
    }
  }

  // ---------------------------------------------------------------- the answers decide

  /** No write fails. */
  predicate Works(tries: Tries) {
    forall i :: 0 <= i < |tries| ==> tries[i].begun && tries[i].stored && tries[i].noted
  }

  predicate TryAgain(answer: Answer) {
    answer.Refused? && answer.retryable
  }

  /** The attempt that ends the loop: the first not told to try again, or the third. */
  predicate LastTry(tries: Tries, first: nat, k: nat) {
    && first <= k < 3 && (forall i :: first <= i < k ==> TryAgain(tries[i].answer))
    && (k == 2 || !TryAgain(tries[k].answer))
  }

  lemma {:induction false} AnswersDecide(row: Row, n: nat, tries: Tries, now: Time) returns (k: nat)
    requires n == row.attempts + 1 && n <= 3 && Works(tries)
    ensures LastTry(tries, n - 1, k)
    ensures var r := TryFrom(row, n, tries, now);
            && r.sends == k + 2 - n && (r.sent <==> tries[k].answer.Accepted?)
            && match tries[k].answer
               case Accepted(m) =>
                 && r.thrown == None
                 && r.row == row.(attempts := k + 1, status := Sent, message := Some(m), sentAt := Some(now), failedAt := None, error := None)
               case Refused(code, again) =>
                 && r.thrown == Some(Provider(code))
                 && r.row == row.(attempts := k + 1, status := Failed, failedAt := Some(now),
                                  error := Some(if again then Temporary(Provider(code)) else Rejected(Provider(code))))
    decreases 4 - n
  {
    var t := tries[n - 1];
    if n < 3 && TryAgain(t.answer) {
      k := AnswersDecide(Noted(Counted(row), Cause(t), true, false, now), n + 1, tries, now);
    } else {
      k := n - 1;
    }
  }

  /**
    An undisturbed call whose writes succeed sends until it is not told to try again, at most three
    times over the life of the row: the row then has the accepted message and is SENT, or is FAILED
    with the provider's code, and the call reports which.
  */
  lemma CallFollowsAnswers(s: Db, key: Id, call: Call) returns (u: Db, k: nat)
    requires s.nextCall !in s.calls && call.built && call.recorded && Works(call.tries)
    requires var row := RowOf(s, key); row.message.None? && row.status !in {Sent, Delivered} && row.attempts < 3
    ensures u == Run(s, CallSteps(s.nextCall, key, RowOf(s, key).attempts, call)) && LastTry(call.tries, RowOf(s, key).attempts, k)
    ensures key in u.rows && SendsOf(u, key) == SendsOf(s, key) + k + 1 - RowOf(s, key).attempts
    ensures s.nextCall in u.reports && u.reports[s.nextCall] == call.tries[k].answer.Accepted?
    ensures match call.tries[k].answer
            case Accepted(m) =>
              u.rows[key] == RowOf(s, key).(attempts := k + 1, status := Sent, message := Some(m), sentAt := Some(s.clock), failedAt := None, error := None)
            case Refused(code, _) =>
              u.rows[key] == RowOf(s, key).(attempts := k + 1, status := Failed, failedAt := Some(s.clock), error := Some(Provider(code)))
  {
    var row := RowOf(s, key);
    u := Run(s, CallSteps(s.nextCall, key, row.attempts, call));
    CallIsARun(s, key, call);
    k := AnswersDecide(row, row.attempts + 1, call.tries, s.clock);
  }

  /** A call on a row that has its message, is SENT or DELIVERED, or has used up its attempts sends nothing and leaves the row alone. */
  lemma SettledSendsNothing(s: Db, key: Id, call: Call) returns (u: Db)
    requires s.nextCall !in s.calls
    requires var row := RowOf(s, key); row.message.Some? || row.status in {Sent, Delivered} || 3 <= row.attempts
    ensures u == Run(s, CallSteps(s.nextCall, key, RowOf(s, key).attempts, call))
    ensures key in u.rows && u.rows[key] == RowOf(s, key) && SendsOf(u, key) == SendsOf(s, key)
    ensures s.nextCall in u.reports && u.reports[s.nextCall] == (RowOf(s, key).status in {Sent, Delivered})
  {
    u := Run(s, CallSteps(s.nextCall, key, RowOf(s, key).attempts, call));
    CallIsARun(s, key, call);
  }
}
