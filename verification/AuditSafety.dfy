/** What sanitized audit metadata reveals, and how large it can be. */
module AuditSafety {
  import opened Common
  import opened Audit

  // ---------------------------------------------------------------- non-interference

  /** The same tree up to the values under sensitive keys, at any depth. */
  predicate Alike(a: Json, b: Json) {
    if a.Array? && b.Array? then
      |a.items| == |b.items| && forall i :: 0 <= i < |a.items| ==> Alike(a.items[i], b.items[i])
    else if a.Object? && b.Object? then
      |a.fields| == |b.fields| && forall i :: 0 <= i < |a.fields| ==> AlikeFields(a.fields[i], b.fields[i])
    else
      a == b
  }

  predicate AlikeFields(f: Field, g: Field) {
    f.key == g.key && (IsSensitive(f.key) || Alike(f.item, g.item))
  }

  /** Values under sensitive keys do not influence the output. */
  lemma {:induction false} SecretsDoNotShow(a: Json, b: Json, depth: nat)
    requires Alike(a, b)
    ensures Sanitize(a, depth) == Sanitize(b, depth)
    decreases MAX_DEPTH + 1 - depth, 2
  {
    if depth <= MAX_DEPTH {
      if a.Array? && b.Array? {
        ItemsDoNotShow(a.items, b.items, depth);
      } else if a.Object? && b.Object? {
        FieldsDoNotShow(a.fields, b.fields, depth);
      }
    }
  }

  lemma {:induction false} ItemsDoNotShow(a: seq<Json>, b: seq<Json>, depth: nat)
    requires depth <= MAX_DEPTH && |a| == |b| && forall i :: 0 <= i < |a| ==> Alike(a[i], b[i])
    ensures Items(a, depth) == Items(b, depth)
    decreases MAX_DEPTH + 1 - depth, 1
  {
    forall i | 0 <= i < |a| ensures Sanitize(a[i], depth + 1) == Sanitize(b[i], depth + 1) {
      SecretsDoNotShow(a[i], b[i], depth + 1);
    }
  }

  lemma {:induction false} FieldsDoNotShow(a: seq<Field>, b: seq<Field>, depth: nat)
    requires depth <= MAX_DEPTH && |a| == |b| && forall i :: 0 <= i < |a| ==> AlikeFields(a[i], b[i])
    ensures Entries(a, depth) == Entries(b, depth)
    decreases MAX_DEPTH + 1 - depth, 1
  {
    forall i | 0 <= i < |a| ensures Entry(a[i], depth) == Entry(b[i], depth) {
      EntryDoesNotShow(a[i], b[i], depth);
    }
  }

  lemma {:induction false} EntryDoesNotShow(f: Field, g: Field, depth: nat)
    requires depth <= MAX_DEPTH && AlikeFields(f, g)
    ensures Entry(f, depth) == Entry(g, depth)
    decreases MAX_DEPTH + 1 - depth, 0
  {
    if !IsSensitive(f.key) { SecretsDoNotShow(f.item, g.item, depth + 1); }
  }

  lemma MetadataSecretsDoNotShow(a: Json, b: Json)
    requires Alike(a, b)
    ensures SanitizeMetadata(a) == SanitizeMetadata(b)
  {
    if !(a.Null? || a.Undefined?) { SecretsDoNotShow(a, b, 0); }
  }

  // ---------------------------------------------------------------- spellings of a key

  lemma {:induction false} NormalizeConcat(a: Text, b: Text)
    ensures Normalize(a + b) == Normalize(a) + Normalize(b)
    decreases |a|
  {
    if a == [] {
      assert a + b == b;
    } else {
      assert (a + b)[0] == a[0] && (a + b)[1..] == a[1..] + b;
      NormalizeConcat(a[1..], b);
    }
  }

  /** Separators, case and look-alikes do not hide a key: only what folding leaves matters. */
  lemma SpellingDoesNotMatter(before: Text, u: Text, v: Text, after: Text)
    requires Normalize(u) == Normalize(v)
    ensures IsSensitive(before + u + after) == IsSensitive(before + v + after)
  {
    NormalizeConcat(before + u, after);
    NormalizeConcat(before, u);
    NormalizeConcat(before + v, after);
    NormalizeConcat(before, v);
  }

  const SENSITIVE_ENDINGS: set<string> := {"password", "secret", "signature", "token", "credential", "apikey"}

  predicate EndsInDe(s: string) {
    |s| >= 2 && s[|s| - 2] == 'd' && s[|s| - 1] == 'e'
  }

  lemma SafeCodesEndInDe(s: string)
    requires s in SAFE_CODES
    ensures EndsInDe(s)
  {
  }

  lemma SensitiveEndingsDoNot(s: string)
    requires s in SENSITIVE_ENDINGS
    ensures |s| >= 2 && !EndsInDe(s)
  {
  }

  /** Whatever stands before it, a key that ends in a sensitive word is sensitive. */
  lemma PrefixDoesNotMatter(prefix: Text, key: Text)
    requires Normalize(key) in SENSITIVE_ENDINGS
    ensures IsSensitive(prefix + key)
  {
    NormalizeConcat(prefix, key);
    EndingIsSensitive(Normalize(prefix), Normalize(key), prefix + key);
  }

  lemma EndingIsSensitive(p: string, k: string, key: Text)
    requires k in SENSITIVE_ENDINGS && Normalize(key) == p + k
    ensures IsSensitive(key)
  {
    var n := p + k;
    SensitiveEndingsDoNot(k);
    EndsAlike(p, k);
    if n in SAFE_CODES { SafeCodesEndInDe(n); }
    NamedByEnding(n, k);
  }

  lemma EndsAlike(p: string, k: string)
    requires |k| >= 2
    ensures EndsWith(p + k, k) && (EndsInDe(p + k) <==> EndsInDe(k))
  {
    var n := p + k;
    assert n[|n| - |k|..] == k;
    assert n[|n| - 2] == k[|k| - 2] && n[|n| - 1] == k[|k| - 1];
  }

  lemma NamedByEnding(n: string, k: string)
    requires k in SENSITIVE_ENDINGS && EndsWith(n, k) && n !in SAFE_CODES
    ensures SensitiveName(n)
  {
  }

  // ---------------------------------------------------------------- bounds

  predicate Printable(s: Text, limit: nat) {
    |s| <= limit && forall i :: 0 <= i < |s| ==> !IsControl(s[i])
  }

  /** At most `nesting` containers deep, small, printable, finite, and with distinct keys. */
  predicate Bounded(v: Json, nesting: nat) {
    match v
    case Null => true
    case Bool(_) => true
    case Number(_) => true
    case Str(s) => Printable(s, MAX_VALUE)
    case Array(items) =>
      nesting > 0 && |items| <= MAX_ENTRIES && forall i :: 0 <= i < |items| ==> Bounded(items[i], nesting - 1)
    case Object(fields) =>
      nesting > 0 && |fields| <= MAX_ENTRIES && DistinctKeys(fields)
      && forall i :: 0 <= i < |fields| ==> BoundedField(fields[i], nesting - 1)
    case _ => false
  }

  predicate BoundedField(f: Field, nesting: nat) {
    f.key != [] && Printable(f.key, MAX_KEY) && Bounded(f.item, nesting)
  }

  predicate DistinctKeys(fields: seq<Field>) {
    forall i, j :: 0 <= i < j < |fields| ==> fields[i].key != fields[j].key
  }

  lemma {:induction false} TrimStartKeeps(s: Text)
    ensures |TrimStart(s)| <= |s| && forall u :: u in TrimStart(s) ==> u in s
    decreases |s|
  {
    if s != [] && IsSpace(s[0]) { TrimStartKeeps(s[1..]); }
  }

  lemma {:induction false} TrimEndKeeps(s: Text)
    ensures |TrimEnd(s)| <= |s| && forall u :: u in TrimEnd(s) ==> u in s
    decreases |s|
  {
    if s != [] && IsSpace(s[|s| - 1]) { TrimEndKeeps(s[..|s| - 1]); }
  }

  lemma CleanIsPrintable(s: Text, limit: nat)
    ensures Clean(s, limit).Some? ==> Printable(Clean(s, limit).value, limit) && (limit > 0 ==> Clean(s, limit).value != [])
  {
    var b := Blank(s);
    TrimStartKeeps(b);
    TrimEndKeeps(TrimStart(b));
    var t := TrimEnd(TrimStart(b));
    forall i | 0 <= i < |t| ensures !IsControl(t[i]) {
      assert t[i] in b;
    }
  }

  lemma DigitsArePrintable(n: int)
    ensures forall i :: 0 <= i < |Digits(n)| ==> !IsControl(Digits(n)[i])
  {
    DecimalIsPrintable(if n < 0 then -n else n);
  }

  lemma {:induction false} DecimalIsPrintable(n: nat)
    ensures forall i :: 0 <= i < |Slug.Decimal(n)| ==> '0' <= Slug.Decimal(n)[i] <= '9'
  {
    if n >= 10 { DecimalIsPrintable(n / 10); }
  }

  lemma PutKeeps(fields: seq<Field>, f: Field, n: nat)
    requires DistinctKeys(fields) && BoundedField(f, n) && forall i :: 0 <= i < |fields| ==> BoundedField(fields[i], n)
    ensures var r := Put(fields, f);
            DistinctKeys(r) && |r| <= |fields| + 1 && forall i :: 0 <= i < |r| ==> BoundedField(r[i], n)
  {
  }

  lemma {:induction false} FromEntriesKeeps(entries: seq<Field>, n: nat)
    requires forall i :: 0 <= i < |entries| ==> BoundedField(entries[i], n)
    ensures var r := FromEntries(entries);
            DistinctKeys(r) && |r| <= |entries| && forall i :: 0 <= i < |r| ==> BoundedField(r[i], n)
    decreases |entries|
  {
    if entries != [] {
      FromEntriesKeeps(entries[..|entries| - 1], n);
      PutKeeps(FromEntries(entries[..|entries| - 1]), entries[|entries| - 1], n);
    }
  }

  /** Every output is bounded: nesting at most seven from the root, 50 entries a container, 500 units a string. */
  lemma {:induction false} SanitizedIsBounded(v: Json, depth: nat)
    requires depth <= MAX_DEPTH + 1
    ensures Bounded(Sanitize(v, depth), MAX_DEPTH + 1 - depth)
    decreases MAX_DEPTH + 1 - depth, 2
  {
    if depth <= MAX_DEPTH {
      match v
      case Str(text) => CleanIsPrintable(text, MAX_VALUE);
      case BigInt(n) => DigitsArePrintable(n);
      case Array(items) => ArrayIsBounded(items, depth);
      case Object(fields) => ObjectIsBounded(fields, depth);
      case _ =>
    }
  }

  lemma {:induction false} ArrayIsBounded(items: seq<Json>, depth: nat)
    requires depth <= MAX_DEPTH
    ensures Bounded(Sanitize(Array(items), depth), MAX_DEPTH + 1 - depth)
    decreases MAX_DEPTH + 1 - depth, 1
  {
    var out := Items(items, depth);
    forall i | 0 <= i < |out| ensures Bounded(out[i], MAX_DEPTH - depth) {
      SanitizedIsBounded(items[i], depth + 1);
    }
  }

  lemma {:induction false} ObjectIsBounded(fields: seq<Field>, depth: nat)
    requires depth <= MAX_DEPTH
    ensures Bounded(Sanitize(Object(fields), depth), MAX_DEPTH + 1 - depth)
    decreases MAX_DEPTH + 1 - depth, 1
  {
    var n := MAX_DEPTH - depth;
    var entries := Entries(fields, depth);
    forall i | 0 <= i < |entries| ensures BoundedField(entries[i], n) {
      EntryIsBounded(fields[i], depth);
    }
    FromEntriesKeeps(entries, n);
    ObjectOfBounded(FromEntries(entries), n);
    assert Sanitize(Object(fields), depth) == Object(FromEntries(entries));
  }

  lemma ObjectOfBounded(fields: seq<Field>, n: nat)
    requires |fields| <= MAX_ENTRIES && DistinctKeys(fields) && forall i :: 0 <= i < |fields| ==> BoundedField(fields[i], n)
    ensures Bounded(Object(fields), n + 1)
  {
  }

  lemma {:induction false} EntryIsBounded(f: Field, depth: nat)
    requires depth <= MAX_DEPTH
    ensures BoundedField(Entry(f, depth), MAX_DEPTH - depth)
    decreases MAX_DEPTH + 1 - depth, 0
  {
    SafeKeyIsPrintable(f.key);
    if IsSensitive(f.key) {
      UnitsArePrintable("[REDACTED]");
      assert Entry(f, depth).item == Str(REDACTED);
    } else {
      SanitizedIsBounded(f.item, depth + 1);
    }
  }

  lemma UnitsArePrintable(s: string)
    requires forall i :: 0 <= i < |s| ==> ' ' <= s[i] <= 'z'
    ensures Printable(Units(s), |s|)
  {
  }

  lemma SafeKeyIsPrintable(key: Text)
    ensures SafeKey(key) != [] && Printable(SafeKey(key), MAX_KEY)
  {
    CleanIsPrintable(key, MAX_KEY);
    UnitsArePrintable("field");
  }

  // ---------------------------------------------------------------- what stays

  function Lookup(fields: seq<Field>, key: Text): Option<Json> {
    var i := IndexOf(fields, key);
    if i < |fields| then Some(fields[i].item) else None
  }

  /** The value of the last entry with a key. */
  function LastValue(entries: seq<Field>, key: Text): Option<Json>
    decreases |entries|
  {
    if entries == [] then None
    else if entries[|entries| - 1].key == key then Some(entries[|entries| - 1].item)
    else LastValue(entries[..|entries| - 1], key)
  }

  lemma LookupAfterPut(fields: seq<Field>, f: Field, key: Text)
    ensures Lookup(Put(fields, f), key) == if key == f.key then Some(f.item) else Lookup(fields, key)
  {
    var r := Put(fields, f);
    var i, j := IndexOf(fields, key), IndexOf(r, key);
    assert forall k :: 0 <= k < |fields| ==> r[k].key == fields[k].key;
    if IndexOf(fields, f.key) == |fields| {
      assert r == fields + [f] && r[|fields|] == f;
      if i == |fields| { assert j >= |fields|; } else { assert j == i; }
    } else {
      assert j == i;
    }
  }

  /** Of the entries whose keys become equal, the last one counts. */
  lemma {:induction false} LastEntryCounts(entries: seq<Field>, key: Text)
    ensures Lookup(FromEntries(entries), key) == LastValue(entries, key)
    decreases |entries|
  {
    if entries != [] {
      var init := entries[..|entries| - 1];
      LastEntryCounts(init, key);
      LookupAfterPut(FromEntries(init), entries[|entries| - 1], key);
    }
  }

  /** Visible at both ends, printable and short: what `text` leaves alone. */
  predicate Tidy(s: Text, limit: nat) {
    s != [] && Printable(s, limit) && !IsSpace(s[0]) && !IsSpace(s[|s| - 1])
  }

  lemma CleanKeepsTidy(s: Text, limit: nat)
    requires Tidy(s, limit)
    ensures Clean(s, limit) == Some(s)
  {
    assert Blank(s) == s;
    assert s[..|s|] == s;
  }

  /** Within the limits, with nothing sensitive. */
  predicate Plain(v: Json, nesting: nat) {
    match v
    case Null => true
    case Bool(_) => true
    case Number(_) => true
    case Str(s) => s == [] || Tidy(s, MAX_VALUE)
    case Array(items) => nesting > 0 && |items| <= MAX_ENTRIES && forall i :: 0 <= i < |items| ==> Plain(items[i], nesting - 1)
    case Object(fields) =>
      nesting > 0 && |fields| <= MAX_ENTRIES && DistinctKeys(fields)
      && forall i :: 0 <= i < |fields| ==> PlainField(fields[i], nesting - 1)
    case _ => false
  }

  predicate PlainField(f: Field, nesting: nat) {
    Tidy(f.key, MAX_KEY) && !IsSensitive(f.key) && Plain(f.item, nesting)
  }

  lemma {:induction false} FromDistinctEntries(entries: seq<Field>)
    requires DistinctKeys(entries)
    ensures FromEntries(entries) == entries
    decreases |entries|
  {
    if entries != [] {
      var init := entries[..|entries| - 1];
      FromDistinctEntries(init);
      var i := IndexOf(init, entries[|entries| - 1].key);
      assert i == |init|;
    }
  }

  lemma {:induction false} ItemsAreKept(items: seq<Json>, depth: nat, nesting: nat)
    requires |items| <= MAX_ENTRIES && depth + nesting < MAX_DEPTH && forall i :: 0 <= i < |items| ==> Plain(items[i], nesting)
    ensures Items(items, depth) == items
    decreases nesting, 2
  {
    var out := Items(items, depth);
    forall i | 0 <= i < |items| ensures out[i] == items[i] {
      PlainIsKept(items[i], depth + 1, nesting);
    }
  }

  lemma {:induction false} PlainEntryIsKept(f: Field, depth: nat, nesting: nat)
    requires PlainField(f, nesting) && depth + nesting < MAX_DEPTH
    ensures Entry(f, depth) == f
    decreases nesting, 2
  {
    CleanKeepsTidy(f.key, MAX_KEY);
    PlainIsKept(f.item, depth + 1, nesting);
  }

  lemma {:induction false} FieldsAreKept(fields: seq<Field>, depth: nat, nesting: nat)
    requires |fields| <= MAX_ENTRIES && depth + nesting < MAX_DEPTH && DistinctKeys(fields)
    requires forall i :: 0 <= i < |fields| ==> PlainField(fields[i], nesting)
    ensures FromEntries(Entries(fields, depth)) == fields
    decreases nesting, 3
  {
    var out := Entries(fields, depth);
    forall i | 0 <= i < |fields| ensures out[i] == fields[i] {
      PlainEntryIsKept(fields[i], depth, nesting);
    }
    assert out == fields;
    FromDistinctEntries(fields);
  }

  /** A tree within the limits that holds nothing sensitive is recorded as it is. */
  lemma {:induction false} PlainIsKept(v: Json, depth: nat, nesting: nat)
    requires Plain(v, nesting) && depth + nesting <= MAX_DEPTH
    ensures Sanitize(v, depth) == v
    decreases nesting, 1
  {
    match v
    case Str(s) => if s != [] { CleanKeepsTidy(s, MAX_VALUE); }
    case Array(items) => ItemsAreKept(items, depth, nesting - 1);
    case Object(fields) => FieldsAreKept(fields, depth, nesting - 1);
    case _ =>
  }
}
