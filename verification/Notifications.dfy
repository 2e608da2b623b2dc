/** Writing notifications (backend/src/notifications/notification.writer.ts): one row per user and dedupe key. */
module Notifications {
  import opened Common

  const RETENTION: nat := 90 * DAY

  datatype Category = Security | Billing | OrganizationNews

  /** What a dedupe key is made of: a provider event with a notice type, or another operation's identifier. */
  datatype Key = OfEvent(event: Id, notice: Notice) | OfOperation(operation: Id)

  datatype Notice = FullRefund | Dispute | SubscriptionCanceled | TrialStarted | PaymentFailed | GraceStarted
                  | CancellationScheduled | OtherNotice

  datatype Note = Note(org: Option<Id>, category: Category, notice: Notice, createdAt: Time, expiresAt: Time)

  datatype Input = Input(user: Id, org: Option<Id>, category: Category, notice: Notice, key: Key, createdAt: Option<Time>)

  type Table = map<(Id, Key), Note>

  /** Organization news can be switched off; a missing preference means on. */
  predicate Wanted(prefs: map<Id, bool>, input: Input) {
    input.category == OrganizationNews && input.user in prefs ==> prefs[input.user]
  }

  function CreatedAt(input: Input, now: Time): Time {
    if input.createdAt.Some? && input.createdAt.value <= now then input.createdAt.value else now
  }

  /** `writeNotification`: an upsert whose update changes nothing. */
  function Write(notes: Table, prefs: map<Id, bool>, input: Input, now: Time): Table {
    if !Wanted(prefs, input) || (input.user, input.key) in notes then
      notes
    else
      var at := CreatedAt(input, now);
      notes[(input.user, input.key) := Note(input.org, input.category, input.notice, at, at + RETENTION)]
  }

  function WriteAll(notes: Table, prefs: map<Id, bool>, inputs: seq<Input>, now: Time): Table
    decreases |inputs|
  {
    if inputs == [] then notes else WriteAll(Write(notes, prefs, inputs[0], now), prefs, inputs[1..], now)
  }

  /** One write adds a row exactly if there is none for the user and key, and it is not organization news the user has switched off. */
  lemma WriteExactly(notes: Table, prefs: map<Id, bool>, input: Input, now: Time)
    ensures var t, k := Write(notes, prefs, input, now), (input.user, input.key);
            if k in notes || (input.category == OrganizationNews && input.user in prefs && !prefs[input.user]) then t == notes
            else
              && k in t && t == notes[k := t[k]] && t[k].org == input.org && t[k].category == input.category && t[k].notice == input.notice
              && t[k].createdAt == (if input.createdAt.Some? && input.createdAt.value <= now then input.createdAt.value else now)
              && t[k].expiresAt == t[k].createdAt + 90 * DAY
  {
  }

  /** Rows are only added: whatever is written later, an existing row stays as it is. */
  lemma {:induction false} WriteAllKeeps(notes: Table, prefs: map<Id, bool>, inputs: seq<Input>, now: Time, k: (Id, Key))
    requires k in notes
    ensures k in WriteAll(notes, prefs, inputs, now) && WriteAll(notes, prefs, inputs, now)[k] == notes[k]
    decreases |inputs|
  {
    if inputs != [] { WriteAllKeeps(Write(notes, prefs, inputs[0], now), prefs, inputs[1..], now, k); }
  }

  /**
    Of any writes to one user and key that are wanted, exactly the first takes effect, and the row it
    leaves was created no later than its write and expires the retention period after.
  */
  lemma {:induction false} FirstWriteWins(notes: Table, prefs: map<Id, bool>, inputs: seq<Input>, now: Time, i: nat)
    requires i < |inputs| && Wanted(prefs, inputs[i])
    requires (inputs[i].user, inputs[i].key) !in notes
    requires forall j :: 0 <= j < i ==> (inputs[j].user, inputs[j].key) != (inputs[i].user, inputs[i].key)
    ensures var k := (inputs[i].user, inputs[i].key);
            var t := WriteAll(notes, prefs, inputs, now);
            k in t && t[k].notice == inputs[i].notice && t[k].org == inputs[i].org
            && t[k].createdAt <= now && t[k].expiresAt == t[k].createdAt + RETENTION
            && (inputs[i].createdAt.Some? && inputs[i].createdAt.value <= now ==> t[k].createdAt == inputs[i].createdAt.value)
    decreases |inputs|
  {
    var next := Write(notes, prefs, inputs[0], now);
    if i == 0 {
      WriteAllKeeps(next, prefs, inputs[1..], now, (inputs[0].user, inputs[0].key));
    } else {
      assert inputs[1..][i - 1] == inputs[i];
      FirstWriteWins(next, prefs, inputs[1..], now, i - 1);
    }
  }

  /** A wanted write to `k` is among the inputs. */
  predicate WritesTo(prefs: map<Id, bool>, inputs: seq<Input>, k: (Id, Key)) {
    exists i :: 0 <= i < |inputs| && Wanted(prefs, inputs[i]) && (inputs[i].user, inputs[i].key) == k
  }

  /** The rows after some writes are the rows before and those that were written to. */
  lemma {:induction false} WriteAllAdds(notes: Table, prefs: map<Id, bool>, inputs: seq<Input>, now: Time, k: (Id, Key))
    ensures k in WriteAll(notes, prefs, inputs, now) <==> k in notes || WritesTo(prefs, inputs, k)
    decreases |inputs|
  {
    if inputs != [] {
      var rest := inputs[1..];
      WriteAllAdds(Write(notes, prefs, inputs[0], now), prefs, rest, now, k);
      if WritesTo(prefs, inputs, k) {
        var i :| 0 <= i < |inputs| && Wanted(prefs, inputs[i]) && (inputs[i].user, inputs[i].key) == k;
        if i > 0 { assert rest[i - 1] == inputs[i]; }
      }
      if WritesTo(prefs, rest, k) {
        var i :| 0 <= i < |rest| && Wanted(prefs, rest[i]) && (rest[i].user, rest[i].key) == k;
        assert inputs[i + 1] == rest[i];
      }
    }
  }
}
