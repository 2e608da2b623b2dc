/** What audit sanitizing makes of keys, texts, scalars and fields, said without its own steps. */
module AuditEffects {
  import opened Common
  import opened Audit
  import opened AuditSafety
  import Slug

  // ---------------------------------------------------------------- which keys are sensitive


  /** `t` spells `s`: letter for letter in either case, the Kelvin sign for k and the dotted I for i, with anything else in between. */
  predicate SpelledBy(s: string, t: Text)
    decreases |t|
  {
    if t == [] then s == ""
    else if 0x41 <= t[0] <= 0x5A then s != "" && s[0] as int == t[0] + 32 && SpelledBy(s[1..], t[1..])
    else if 0x61 <= t[0] <= 0x7A || 0x30 <= t[0] <= 0x39 then s != "" && s[0] as int == t[0] && SpelledBy(s[1..], t[1..])
    else if t[0] == 0x212A then s != "" && s[0] == 'k' && SpelledBy(s[1..], t[1..])
    else if t[0] == 0x0130 then s != "" && s[0] == 'i' && SpelledBy(s[1..], t[1..])
    else SpelledBy(s, t[1..])
  }

  lemma {:induction false} SpellingNormalizes(s: string, t: Text)
    requires SpelledBy(s, t)
    ensures Normalize(t) == s
    decreases |t|
  {
    if t != [] {
      if 0x41 <= t[0] <= 0x5A || 0x61 <= t[0] <= 0x7A || 0x30 <= t[0] <= 0x39 || t[0] == 0x212A || t[0] == 0x0130 {
        SpellingNormalizes(s[1..], t[1..]);
        assert s == [s[0]] + s[1..];
      } else {
        SpellingNormalizes(s, t[1..]);
      }
    }
  }

  ghost predicate Ends(s: string, suffix: string) {
    exists p: string :: s == p + suffix
  }

  lemma EndsIsEndsWith(s: string, suffix: string)
    ensures Ends(s, suffix) <==> EndsWith(s, suffix)
  {
    if EndsWith(s, suffix) {
      assert s == s[..|s| - |suffix|] + suffix;
    }
  }

  /** The names that are sensitive as they are. */
  predicate Listed(s: string) {
    s in {"authorization", "backupcode", "challengesecret", "challengetoken", "code", "cookie", "credentials", "currentpassword",
          "manualentrykey", "password", "provisioninguri", "recoverycode", "refreshtoken", "setcookie", "signature", "totpcode",
          "twofactorsecret"}
  }

  ghost predicate SensitiveEnd(s: string) {
    || Ends(s, "password") || Ends(s, "secret") || Ends(s, "signature")
    || Ends(s, "token") || Ends(s, "credential") || Ends(s, "apikey")
  }

  lemma EndsByWord(s: string)
    ensures SensitiveEnd(s) <==>
              || EndsWith(s, "password") || EndsWith(s, "secret") || EndsWith(s, "signature")
              || EndsWith(s, "token") || EndsWith(s, "credential") || EndsWith(s, "apikey")
  {
    EndsIsEndsWith(s, "password");
    EndsIsEndsWith(s, "secret");
    EndsIsEndsWith(s, "signature");
    EndsIsEndsWith(s, "token");
    EndsIsEndsWith(s, "credential");
    EndsIsEndsWith(s, "apikey");
  }

  lemma LastTwo(s: string, suffix: string)
    requires EndsInDe(s) && |suffix| >= 2 && !EndsInDe(suffix)
    ensures !EndsWith(s, suffix)
  {
  }

  lemma NoSensitiveEnd(s: string)
    requires EndsInDe(s)
    ensures !SensitiveEnd(s)
  {
    EndsByWord(s);
    LastTwo(s, "password");
    LastTwo(s, "secret");
    LastTwo(s, "signature");
    LastTwo(s, "token");
    LastTwo(s, "credential");
    LastTwo(s, "apikey");
  }

  /** The length and first letter of an exempted code. */
  predicate CodeShape(s: string) {
    (|s| == 9 && s[0] == 'e') || (|s| == 10 && s[0] in {'r', 's'})
  }

  lemma SafeShape(s: string)
    requires s in SAFE_CODES
    ensures CodeShape(s)
  {
  }

  lemma ListedShape(s: string)
    requires Listed(s)
    ensures !CodeShape(s)
  {
  }

  /** The exempted codes are neither listed nor end sensitively. */
  lemma ExemptionsChangeNothing(s: string)
    requires s in SAFE_CODES
    ensures !Listed(s) && !SensitiveEnd(s)
  {
    SafeCodesEndInDe(s);
    NoSensitiveEnd(s);
    SafeShape(s);
    if Listed(s) { ListedShape(s); }
  }

  /** A key is sensitive exactly if it spells a listed name or one that ends in a sensitive word; the exempted codes do neither. */
  lemma SensitiveExactly(s: string, key: Text)
    requires SpelledBy(s, key)
    ensures IsSensitive(key) <==> Listed(s) || SensitiveEnd(s)
  {
    SpellingNormalizes(s, key);
    EndsByWord(s);
    if s in SAFE_CODES { ExemptionsChangeNothing(s); }
  }

  /** In particular a key that ends in any other letter or a digit is an ordinary one. */
  lemma OrdinaryKeys(s: string, key: Text)
    requires SpelledBy(s, key) && s != "" && s[|s| - 1] !in {'d', 'e', 'i', 'l', 'n', 's', 't', 'y'}
    ensures !IsSensitive(key)
  {
    SensitiveExactly(s, key);
    if Listed(s) { LastOfListed(s); }
    if SensitiveEnd(s) { LastOfEnd(s); }
  }

  lemma LastOfListed(s: string)
    requires Listed(s)
    ensures s != "" && s[|s| - 1] in {'d', 'e', 'i', 'n', 's', 't', 'y'}
  {
  }

  lemma LastOfEnd(s: string)
    requires SensitiveEnd(s)
    ensures s != "" && s[|s| - 1] in {'d', 'e', 'l', 'n', 't', 'y'}
  {
    EndsByWord(s);
  }

  // ---------------------------------------------------------------- texts

  /** A control character, a Unicode space or a line terminator. */
  predicate Invisible(u: Unit) {
    u <= 0x20 || u == 0x7F || u == 0xA0 || u == 0x1680 || 0x2000 <= u <= 0x200A
    || u in {0x2028, 0x2029, 0x202F, 0x205F, 0x3000, 0xFEFF}
  }

  lemma {:induction false} TrimStartCuts(s: Text) returns (i: nat)
    ensures i <= |s| && TrimStart(s) == s[i..] && (forall k :: 0 <= k < i ==> IsSpace(s[k])) && (i < |s| ==> !IsSpace(s[i]))
    decreases |s|
  {
    if s != [] && IsSpace(s[0]) {
      var j := TrimStartCuts(s[1..]);
      i := j + 1;
      assert s[1..][j..] == s[i..];
      forall k | 0 <= k < i ensures IsSpace(s[k]) {
        if k > 0 { assert s[1..][k - 1] == s[k]; }
      }
    } else {
      i := 0;
    }
  }

  lemma {:induction false} TrimEndCuts(s: Text) returns (j: nat)
    ensures j <= |s| && TrimEnd(s) == s[..j] && (forall k :: j <= k < |s| ==> IsSpace(s[k])) && (j > 0 ==> !IsSpace(s[j - 1]))
    decreases |s|
  {
    if s != [] && IsSpace(s[|s| - 1]) {
      var init := s[..|s| - 1];
      j := TrimEndCuts(init);
      assert init[..j] == s[..j];
      forall k | j <= k < |s| ensures IsSpace(s[k]) {
        if k < |s| - 1 { assert init[k] == s[k]; }
      }
    } else {
      j := |s|;
    }
  }

  /**
    Nothing is left of a text without visible units. Of any other its part from the first visible unit
    `i` to the last is left, cut to the limit, with spaces in place of control characters.
  */
  lemma CleanExactly(s: Text, limit: nat) returns (i: nat, j: nat)
    ensures i <= j <= |s| && (forall k :: 0 <= k < i || j <= k < |s| ==> Invisible(s[k]))
    ensures Clean(s, limit).None? <==> i == j
    ensures i < j ==>
              && !Invisible(s[i]) && !Invisible(s[j - 1])
              && var t := Clean(s, limit).value;
                 |t| == Min(j - i, limit) && forall k :: 0 <= k < |t| ==> t[k] == if s[i + k] < 0x20 || s[i + k] == 0x7F then 0x20 else s[i + k]
  {
    var b := Blank(s);
    i := TrimStartCuts(b);
    var r := b[i..];
    var n := TrimEndCuts(r);
    j := i + n;
    assert r[..n] == b[i..j];
    forall k | 0 <= k < i || j <= k < |s| ensures Invisible(s[k]) {
      if j <= k { assert r[k - i] == b[k]; }
    }
    if n > 0 { assert r[0] == b[i] && r[n - 1] == b[j - 1]; }
  }

  // ---------------------------------------------------------------- values

  /** Below the sixth level everything becomes a mark; above, scalars become what JSON can hold. */
  lemma ScalarsBecome(v: Json, depth: nat)
    ensures depth > 6 ==> Sanitize(v, depth) == Str(Units("[TRUNCATED]"))
    ensures depth <= 6 && v in {Null, Undefined, NotFinite, Callable} ==> Sanitize(v, depth) == Null
    ensures depth <= 6 && (v.Bool? || v.Number?) ==> Sanitize(v, depth) == v
  {
  }

  /** A number that spells itself in at most 500 units stays readable. */
  lemma BigIntIsSpelled(n: nat, depth: nat)
    requires depth <= 6 && |Slug.Decimal(n)| <= 499
    ensures Sanitize(BigInt(n), depth) == Str(Units(Slug.Decimal(n))) && Slug.ValueOf(Slug.Decimal(n)) == n
    ensures n > 0 ==> Sanitize(BigInt(-(n as int)), depth) == Str(Units("-" + Slug.Decimal(n)))
  {
    Slug.DecimalSpells(n);
    var d := Digits(n);
    assert d[..|d|] == d;
    if n > 0 {
      var e := Digits(-(n as int));
      assert e[..|e|] == e;
    }
  }

  /** Arrays keep their first fifty items, each sanitized one level down. */
  lemma ItemsBecome(items: seq<Json>, depth: nat)
    requires depth <= 6
    ensures var out := Sanitize(Array(items), depth);
            && out.Array? && |out.items| == Min(|items|, 50)
            && forall i :: 0 <= i < |out.items| ==> out.items[i] == Sanitize(items[i], depth + 1)
  {
  }

  /** The key under which a field is recorded: cleaned and cut to a hundred units, or "field" if nothing is left. */
  predicate RecordedAs(key: Text, out: Text) {
    if Clean(key, 100).Some? then out == Clean(key, 100).value else out == Units("field")
  }

  lemma {:induction false} LastOfRecorded(entries: seq<Field>, i: nat)
    requires i < |entries| && forall j :: i < j < |entries| ==> entries[j].key != entries[i].key
    ensures LastValue(entries, entries[i].key) == Some(entries[i].item)
    decreases |entries|
  {
    if i < |entries| - 1 {
      var init := entries[..|entries| - 1];
      assert init[i] == entries[i];
      LastOfRecorded(init, i);
    }
  }

  /**
    Of an object's first fifty fields each is recorded under its key, unless a later one of them has the
    same: as "[REDACTED]" exactly if the key is sensitive, and else sanitized one level down.
  */
  lemma FieldBecomes(fields: seq<Field>, depth: nat, i: nat, key: Text) returns (out: seq<Field>)
    requires depth <= 6 && i < |fields| && i < 50 && RecordedAs(fields[i].key, key)
    requires forall j :: i < j < |fields| && j < 50 ==> !RecordedAs(fields[j].key, key)
    ensures Sanitize(Object(fields), depth) == Object(out)
    ensures Lookup(out, key) == Some(if IsSensitive(fields[i].key) then Str(Units("[REDACTED]")) else Sanitize(fields[i].item, depth + 1))
  {
    var entries := Entries(fields, depth);
    out := FromEntries(entries);
    LastEntryCounts(entries, key);
    EntryBecomes(fields[i], depth);
    forall j | i < j < |entries| ensures entries[j].key != key {
      EntryBecomes(fields[j], depth);
    }
    LastOfRecorded(entries, i);
  }

  lemma EntryBecomes(f: Field, depth: nat)
    requires depth <= 6
    ensures RecordedAs(f.key, Entry(f, depth).key)
    ensures Entry(f, depth).item == if IsSensitive(f.key) then Str(Units("[REDACTED]")) else Sanitize(f.item, depth + 1)
  {
  }
}
