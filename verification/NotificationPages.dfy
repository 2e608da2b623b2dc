/**
  Keyset pagination of notifications (backend/src/notifications/notifications.service.ts). A page is
  read from the keys that match the filter at that moment; between pages the table may change in any way.
*/
module NotificationPages {
  import opened Common

  /** The sort key: creation time, then identifier, both descending in a list. */
  datatype Key = Key(at: Time, id: Id)

  predicate Below(a: Key, b: Key) {
    a.at < b.at || (a.at == b.at && a.id < b.id)
  }

  datatype Row = Row(user: Id, org: Option<Id>, createdAt: Time, expiresAt: Time, readAt: Option<Time>)

  /** `activeWhere` with the optional organization filter. */
  predicate Active(row: Row, now: Time, user: Id, org: Option<Id>) {
    row.user == user && (org.Some? ==> row.org == org) && row.createdAt <= now < row.expiresAt
  }

  function View(rows: map<Id, Row>, now: Time, user: Id, org: Option<Id>, unreadOnly: bool): set<Key> {
    set id | id in rows && Active(rows[id], now, user, org) && (unreadOnly ==> rows[id].readAt.None?) :: Key(rows[id].createdAt, id)
  }

  /** A list shows a user's notifications that are dated by now and have not expired, of the organization if one is asked for. */
  lemma ViewExactly(rows: map<Id, Row>, now: Time, user: Id, org: Option<Id>, unreadOnly: bool, k: Key)
    ensures k in View(rows, now, user, org, unreadOnly) <==>
              && k.id in rows && rows[k.id].createdAt == k.at && rows[k.id].user == user && k.at <= now && now < rows[k.id].expiresAt
              && (org.Some? ==> rows[k.id].org == org) && (unreadOnly ==> rows[k.id].readAt == None)
  {
  }

  // ---------------------------------------------------------------- one page

  predicate IsLargest(k: Key, keys: set<Key>) {
    k in keys && forall x :: x in keys ==> x == k || Below(x, k)
  }

  lemma {:induction false} LargestExists(keys: set<Key>)
    requires keys != {}
    ensures exists k :: IsLargest(k, keys)
    decreases |keys|
  {
    var x :| x in keys;
    var rest := keys - {x};
    if rest == {} {
      assert forall y :: y in keys ==> y == x || y in rest;
      assert IsLargest(x, keys);
    } else {
      LargestExists(rest);
      var k :| IsLargest(k, rest);
      var m := if Below(k, x) then x else k;
      forall y | y in keys ensures y == m || Below(y, m) {
        if y != x { assert y in rest; }
      }
      assert IsLargest(m, keys);
    }
  }

  function Largest(keys: set<Key>): (k: Key)
    requires keys != {}
    ensures IsLargest(k, keys)
  {
    LargestExists(keys);
    var k :| IsLargest(k, keys);
    k
  }

  /** The first `n` keys in descending order. */
  function Top(keys: set<Key>, n: nat): seq<Key> {
    if n == 0 || keys == {} then [] else [Largest(keys)] + Top(keys - {Largest(keys)}, n - 1)
  }

  function Eligible(view: set<Key>, cursor: Option<Key>): set<Key> {
    set k | k in view && (cursor.Some? ==> Below(k, cursor.value))
  }

  datatype Page = Page(items: seq<Key>, next: Option<Key>)

  /** `list`: one row more than the limit is fetched to learn whether there is a next page. */
  function ListPage(view: set<Key>, cursor: Option<Key>, limit: nat): Page {
    var records := Top(Eligible(view, cursor), limit + 1);
    if |records| > limit then
      Page(records[..limit], if limit == 0 then None else Some(records[limit - 1]))
    else
      Page(records, None)
  }

  predicate Descending(s: seq<Key>) {
    forall i, j :: 0 <= i < j < |s| ==> Below(s[j], s[i])
  }

  /** The top keys are descending, among the keys, and above all the keys left out, of which there are none if room is left. */
  lemma {:induction false} TopIsTop(keys: set<Key>, n: nat)
    ensures var t := Top(keys, n);
            && Descending(t) && |t| <= n
            && (forall k :: k in t ==> k in keys)
            && (forall k, i :: k in keys && k !in t && 0 <= i < |t| ==> Below(k, t[i]))
            && (|t| < n ==> forall k :: k in keys ==> k in t)
    decreases n
  {
    if n > 0 && keys != {} {
      var m := Largest(keys);
      var rest := Top(keys - {m}, n - 1);
      TopIsTop(keys - {m}, n - 1);
      var t := Top(keys, n);
      assert t == [m] + rest;
      forall i, j | 0 <= i < j < |t| ensures Below(t[j], t[i]) {
        assert t[j] == rest[j - 1] && rest[j - 1] in rest;
      }
      forall k, i | k in keys && k !in t && 0 <= i < |t| ensures Below(k, t[i]) {
        if i > 0 { assert t[i] == rest[i - 1]; }
        assert k != m && k !in rest;
      }
    }
  }

  /**
    A page lists matching keys below the cursor in descending order. The last page leaves none of
    them out; any other page is full and leaves out exactly those below its next cursor.
  */
  lemma PageIsNext(view: set<Key>, cursor: Option<Key>, limit: nat)
    requires limit > 0
    ensures var p := ListPage(view, cursor, limit);
            && Descending(p.items) && |p.items| <= limit
            && (forall k :: k in p.items ==> k in Eligible(view, cursor))
            && (p.next.None? ==> forall k :: k in Eligible(view, cursor) ==> k in p.items)
            && (p.next.Some? ==> |p.items| == limit && p.next.value == p.items[limit - 1])
            && (p.next.Some? ==> exists k :: k in Eligible(view, p.next))
            && (p.next.Some? ==> forall k :: k in Eligible(view, cursor) ==> (k in p.items <==> !Below(k, p.next.value)))
  {
    var all := Eligible(view, cursor);
    var records := Top(all, limit + 1);
    TopIsTop(all, limit + 1);
    if |records| > limit {
      var p := ListPage(view, cursor, limit);
      assert records[limit] in records && records[limit] in Eligible(view, p.next);
      forall k | k in all ensures k in p.items <==> !Below(k, p.next.value) {
        if k in records {
          var i :| 0 <= i < |records| && records[i] == k;
          if i < limit { assert p.items[i] == k; }
        } else {
          assert Below(k, records[limit - 1]);
        }
      }
    }
  }

  /** The newest come first, those of the same time by descending identifier, and only those after the cursor in that order. */
  lemma PageNewestFirst(view: set<Key>, cursor: Option<Key>, limit: nat)
    requires limit > 0
    ensures var items := ListPage(view, cursor, limit).items;
            && (forall i, j :: 0 <= i < j < |items| ==>
                  items[j].at < items[i].at || (items[j].at == items[i].at && items[j].id < items[i].id))
            && (cursor.Some? ==> forall i :: 0 <= i < |items| ==>
                  items[i].at < cursor.value.at || (items[i].at == cursor.value.at && items[i].id < cursor.value.id))
  {
    PageIsNext(view, cursor, limit);
    var items := ListPage(view, cursor, limit).items;
    forall i | 0 <= i < |items| ensures items[i] in Eligible(view, cursor) { assert items[i] in items; }
  }

  // ---------------------------------------------------------------- the walk

  /** Following `nextCursor`, reading page `i` from `views[i]`; what has been listed, in order. */
  function Walk(views: seq<set<Key>>, cursor: Option<Key>, limit: nat): seq<Key>
    decreases |views|
  {
    if views == [] then []
    else
      var p := ListPage(views[0], cursor, limit);
      if p.next.None? then p.items else p.items + Walk(views[1..], p.next, limit)
  }

  /** How many pages are read until there is no next one; one more than there are views if that does not happen. */
  function Reads(views: seq<set<Key>>, cursor: Option<Key>, limit: nat): nat
    decreases |views|
  {
    if views == [] || ListPage(views[0], cursor, limit).next.None? then 1
    else 1 + Reads(views[1..], ListPage(views[0], cursor, limit).next, limit)
  }

  lemma DescendingConcat(a: seq<Key>, b: seq<Key>)
    requires Descending(a) && Descending(b) && a != [] && forall k :: k in b ==> Below(k, a[|a| - 1])
    ensures Descending(a + b)
  {
    var w := a + b;
    forall i, j | 0 <= i < j < |w| ensures Below(w[j], w[i]) {
      if i < |a| <= j { assert w[j] == b[j - |a|] && b[j - |a|] in b; }
    }
  }

  /** The walk lists strictly descending keys below its cursor: nothing appears twice. */
  lemma {:induction false} WalkDescends(views: seq<set<Key>>, cursor: Option<Key>, limit: nat)
    requires limit > 0
    ensures Descending(Walk(views, cursor, limit))
    ensures cursor.Some? ==> forall k :: k in Walk(views, cursor, limit) ==> Below(k, cursor.value)
    decreases |views|
  {
    if views != [] {
      var p := ListPage(views[0], cursor, limit);
      PageIsNext(views[0], cursor, limit);
      if p.next.Some? {
        var rest := Walk(views[1..], p.next, limit);
        WalkDescends(views[1..], p.next, limit);
        assert p.items[limit - 1] in p.items;
        DescendingConcat(p.items, rest);
        forall k | cursor.Some? && k in p.items + rest ensures Below(k, cursor.value) {
          assert k in p.items || k in rest;
        }
      }
    }
  }

  /** Every key listed matched the filter when some page was read. */
  lemma {:induction false} WalkIsSound(views: seq<set<Key>>, cursor: Option<Key>, limit: nat, k: Key)
    requires limit > 0 && k in Walk(views, cursor, limit)
    ensures exists i :: 0 <= i < |views| && i < Reads(views, cursor, limit) && k in views[i]
    decreases |views|
  {
    var p := ListPage(views[0], cursor, limit);
    PageIsNext(views[0], cursor, limit);
    if k in p.items {
      assert k in views[0];
    } else {
      WalkIsSound(views[1..], p.next, limit, k);
      var i :| 0 <= i < |views[1..]| && i < Reads(views[1..], p.next, limit) && k in views[1..][i];
      assert k in views[i + 1];
    }
  }

  /** A walk that reached its end has listed every key that matched at every page read. */
  lemma {:induction false} WalkIsComplete(views: seq<set<Key>>, cursor: Option<Key>, limit: nat, k: Key)
    requires limit > 0 && Reads(views, cursor, limit) <= |views|
    requires forall i :: 0 <= i < Reads(views, cursor, limit) ==> k in views[i]
    requires cursor.Some? ==> Below(k, cursor.value)
    ensures k in Walk(views, cursor, limit)
    decreases |views|
  {
    var p := ListPage(views[0], cursor, limit);
    PageIsNext(views[0], cursor, limit);
    assert k in views[0] && k in Eligible(views[0], cursor);
    if p.next.Some? && k !in p.items {
      assert Below(k, p.next.value);
      forall i | 0 <= i < Reads(views[1..], p.next, limit) ensures k in views[1..][i] {
        assert views[1..][i] == views[i + 1];
      }
      WalkIsComplete(views[1..], p.next, limit, k);
    }
  }

  /**
    Whatever happens to the table between pages, a walk from the start that reached its end lists no
    notification twice and lists exactly once each one that matched at every page read.
  */
  lemma EachListedOnce(views: seq<set<Key>>, limit: nat, k: Key)
    requires limit > 0 && Reads(views, None, limit) <= |views|
    ensures forall i, j :: 0 <= i < j < |Walk(views, None, limit)| ==> Walk(views, None, limit)[i] != Walk(views, None, limit)[j]
    ensures (forall i :: 0 <= i < Reads(views, None, limit) ==> k in views[i]) ==> multiset(Walk(views, None, limit))[k] == 1
    ensures k in Walk(views, None, limit) ==> exists i :: 0 <= i < Reads(views, None, limit) && k in views[i]
  {
    var w := Walk(views, None, limit);
    WalkDescends(views, None, limit);
    if k in w { WalkIsSound(views, None, limit, k); }
    if forall i :: 0 <= i < Reads(views, None, limit) ==> k in views[i] {
      WalkIsComplete(views, None, limit, k);
      DistinctOnce(w, k);
    }
  }

  lemma {:induction false} DistinctOnce(s: seq<Key>, k: Key)
    requires k in s && Descending(s)
    ensures multiset(s)[k] == 1
    decreases |s|
  {
    assert s == [s[0]] + s[1..];
    if k == s[0] {
      assert k !in s[1..];
    } else {
      assert Descending(s[1..]);
      DistinctOnce(s[1..], k);
    }
  }

  // ---------------------------------------------------------------- termination

  lemma {:induction false} DescendingSet(s: seq<Key>)
    requires Descending(s)
    ensures |set k | k in s| == |s|
    decreases |s|
  {
    if s != [] {
      var rest := s[1..];
      DescendingSet(rest);
      assert (set k | k in s) == {s[0]} + set k | k in rest;
      assert s[0] !in rest;
    }
  }

  lemma SubsetSize(a: set<Key>, b: set<Key>)
    requires a <= b
    ensures |b - a| == |b| - |a|
  {
  }

  /** A full page takes at least `limit` keys of a finite universe out of reach of the next cursor. */
  lemma PageShrinks(all: set<Key>, view: set<Key>, cursor: Option<Key>, limit: nat)
    requires limit > 0 && view <= all && ListPage(view, cursor, limit).next.Some?
    ensures |Eligible(all, ListPage(view, cursor, limit).next)| + limit <= |Eligible(all, cursor)|
    ensures |Eligible(all, cursor)| > limit
  {
    var p := ListPage(view, cursor, limit);
    PageIsNext(view, cursor, limit);
    var taken := set k | k in p.items;
    DescendingSet(p.items);
    var before, after := Eligible(all, cursor), Eligible(all, p.next);
    forall k | k in after ensures k in before - taken {
      assert p.items[limit - 1] in p.items;
    }
    SubsetSize(taken, before);
    assert after <= before - taken;
    SubsetSize(after, before - taken);
    var k :| k in Eligible(view, p.next);
    assert k in after;
  }

  /** Over a finite universe of keys the walk ends: `n` pages suffice for `n * limit` keys. */
  lemma {:induction false} WalkEnds(all: set<Key>, views: seq<set<Key>>, cursor: Option<Key>, limit: nat)
    requires limit > 0 && views != []
    requires forall i :: 0 <= i < |views| ==> views[i] <= all
    requires |Eligible(all, cursor)| <= |views| * limit
    ensures Reads(views, cursor, limit) <= |views|
    decreases |views|
  {
    var p := ListPage(views[0], cursor, limit);
    if p.next.Some? {
      PageShrinks(all, views[0], cursor, limit);
      assert |views| > 1;
      assert |views[1..]| * limit == |views| * limit - limit;
      WalkEnds(all, views[1..], p.next, limit);
    }
  }
}
