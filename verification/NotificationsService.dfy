/** `NotificationsService`, with the rows changed in place. */
module NotificationsService {
  import opened Common
  import opened NotificationPages

  /** Marking unread rows read removes them from the unread view and touches no other row. */
  function ReadAll(rows: map<Id, Row>, now: Time, user: Id, org: Option<Id>): map<Id, Row> {
    map id | id in rows :: if Active(rows[id], now, user, org) && rows[id].readAt.None? then rows[id].(readAt := Some(now)) else rows[id]
  }

  function MarkOne(rows: map<Id, Row>, now: Time, user: Id, id: Id): map<Id, Row> {
    if id in rows && Active(rows[id], now, user, None) && rows[id].readAt.None? then rows[id := rows[id].(readAt := Some(now))] else rows
  }

  /**
    After `markAllRead` nothing matching is unread, and at any later time only what is dated after it;
    every list of all notifications and every other user's unread list is unchanged.
  */
  lemma ReadAllClears(rows: map<Id, Row>, now: Time, later: Time, user: Id, org: Option<Id>)
    requires now <= later
    ensures View(ReadAll(rows, now, user, org), now, user, org, true) == {}
    ensures forall k :: k in View(ReadAll(rows, now, user, org), later, user, org, true) ==> k.at > now
    ensures forall u, o :: View(ReadAll(rows, now, user, org), later, u, o, false) == View(rows, later, u, o, false)
    ensures forall u, o :: u != user ==> View(ReadAll(rows, now, user, org), later, u, o, true) == View(rows, later, u, o, true)
    ensures ReadAll(ReadAll(rows, now, user, org), later, user, org).Keys == rows.Keys
    ensures forall id :: id in rows && Active(rows[id], now, user, org)
                         ==> ReadAll(ReadAll(rows, now, user, org), later, user, org)[id] == ReadAll(rows, now, user, org)[id]
  {
    var t := ReadAll(rows, now, user, org);
    forall u, o ensures View(t, later, u, o, false) == View(rows, later, u, o, false) {
      SameView(rows, t, later, u, o, false);
    }
    forall u, o | u != user ensures View(t, later, u, o, true) == View(rows, later, u, o, true) {
      SameView(rows, t, later, u, o, true);
    }
  }

  lemma SameView(rows: map<Id, Row>, t: map<Id, Row>, now: Time, user: Id, org: Option<Id>, unreadOnly: bool)
    requires rows.Keys == t.Keys
    requires forall id :: id in rows ==> t[id] == rows[id].(readAt := t[id].readAt)
    requires unreadOnly ==> forall id :: id in rows && rows[id].user == user ==> t[id] == rows[id]
    ensures View(t, now, user, org, unreadOnly) == View(rows, now, user, org, unreadOnly)
  {
  }

  /** Marking one notification read removes exactly it from the reader's unread view. */
  lemma MarkOneTakesOne(rows: map<Id, Row>, now: Time, user: Id, id: Id)
    requires id in rows && Active(rows[id], now, user, None)
    ensures View(MarkOne(rows, now, user, id), now, user, None, true)
            == View(rows, now, user, None, true) - {Key(rows[id].createdAt, id)}
    ensures MarkOne(MarkOne(rows, now, user, id), now, user, id) == MarkOne(rows, now, user, id)
  {
    var t := MarkOne(rows, now, user, id);
    forall k ensures k in View(t, now, user, None, true)
                     <==> k in View(rows, now, user, None, true) && k != Key(rows[id].createdAt, id) {
      assert k.id in rows && k.id != id ==> t[k.id] == rows[k.id];
    }
  }

  /** Each row that is marked gets the time of marking; rows that are read, expired, not due or of others stay as they are. */
  lemma MarkingDates(rows: map<Id, Row>, now: Time, user: Id, org: Option<Id>, id: Id, other: Id)
    requires other in rows
    ensures var due := rows[other].user == user && rows[other].createdAt <= now < rows[other].expiresAt && rows[other].readAt.None?;
            && ReadAll(rows, now, user, org).Keys == rows.Keys && MarkOne(rows, now, user, id).Keys == rows.Keys
            && ReadAll(rows, now, user, org)[other]
               == (if due && (org.Some? ==> rows[other].org == org) then rows[other].(readAt := Some(now)) else rows[other])
            && MarkOne(rows, now, user, id)[other] == if due && other == id then rows[other].(readAt := Some(now)) else rows[other]
  {
  }

  class Service {
    var clock: Time
    var rows: map<Id, Row>

    constructor ()
      ensures clock == 0 && rows == map[]
    {
      clock, rows := 0, map[];
    }

    /** `list`, whose cursor logic follows one query for a row more than the limit. */
    method List(user: Id, org: Option<Id>, unreadOnly: bool, cursor: Option<Key>, limit: nat) returns (page: Page)
      ensures page == ListPage(View(rows, clock, user, org, unreadOnly), cursor, limit)
    {
      var records := Top(Eligible(View(rows, clock, user, org, unreadOnly), cursor), limit + 1);
      var hasMore := |records| > limit;
      var items := records;
      if hasMore { items := records[..limit]; }
      var next: Option<Key> := None;
      if hasMore && |items| > 0 { next := Some(items[|items| - 1]); }
      page := Page(items, next);
    }

    method UnreadCount(user: Id, org: Option<Id>) returns (count: nat)
      ensures count == |View(rows, clock, user, org, true)|
    {
      count := |View(rows, clock, user, org, true)|;
    }

    method MarkRead(user: Id, id: Id) returns (found: bool)
      modifies this`rows
      ensures found == (id in old(rows) && Active(old(rows)[id], clock, user, None))
      ensures rows == MarkOne(old(rows), clock, user, id)
    {
      if id !in rows || !Active(rows[id], clock, user, None) { return false; }
      if rows[id].readAt.None? { rows := rows[id := rows[id].(readAt := Some(clock))]; }
      return true;
    }

    /** The count is the number of unread notifications there were, and none is left. */
    method MarkAllRead(user: Id, org: Option<Id>) returns (count: nat)
      modifies this`rows
      ensures rows == ReadAll(old(rows), clock, user, org)
      ensures count == |old(View(rows, clock, user, org, true))|
      ensures View(rows, clock, user, org, true) == {}
    {
      count := UnreadCount(user, org);
      rows := map id | id in rows ::
        if Active(rows[id], clock, user, org) && rows[id].readAt.None? then rows[id].(readAt := Some(clock)) else rows[id];
    }
  }
}
