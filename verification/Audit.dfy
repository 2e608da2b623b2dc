/**
  Audit metadata (backend/src/audit/audit.service.ts): sanitizing a tree of values. Strings are
  sequences of UTF-16 code units.
*/
module Audit {
  import opened Common
  import Slug

  type Unit = u: int | 0 <= u < 0x1_0000

  type Text = seq<Unit>

  const MAX_DEPTH: nat := 6
  const MAX_ENTRIES: nat := 50
  const MAX_VALUE: nat := 500
  const MAX_KEY: nat := 100

  datatype Json =
    | Null
    | Undefined
    | Bool(flag: bool)
    | Number(value: real)
    | NotFinite
    | BigInt(whole: int)
    | Str(text: Text)
    | Callable
    | Array(items: seq<Json>)
    | Object(fields: seq<Field>)

  datatype Field = Field(key: Text, item: Json)

  function Units(s: string): Text {
    seq(|s|, i requires 0 <= i < |s| => s[i] as int % 0x1_0000)
  }

  // ---------------------------------------------------------------- text

  predicate IsControl(u: Unit) {
    u <= 31 || u == 127
  }

  /** White space and line terminators, as `trim` removes them. */
  predicate IsSpace(u: Unit) {
    0x09 <= u <= 0x0D || u == 0x20 || u == 0xA0 || u == 0x1680 || 0x2000 <= u <= 0x200A
    || u == 0x2028 || u == 0x2029 || u == 0x202F || u == 0x205F || u == 0x3000 || u == 0xFEFF
  }

  function Blank(s: Text): (r: Text)
    ensures |r| == |s|
    ensures forall i :: 0 <= i < |s| ==> r[i] == if IsControl(s[i]) then 0x20 else s[i]
  {
    seq(|s|, i requires 0 <= i < |s| => if IsControl(s[i]) then 0x20 else s[i])
  }

  function TrimStart(s: Text): Text
    decreases |s|
  {
    if s != [] && IsSpace(s[0]) then TrimStart(s[1..]) else s
  }

  function TrimEnd(s: Text): Text
    decreases |s|
  {
    if s != [] && IsSpace(s[|s| - 1]) then TrimEnd(s[..|s| - 1]) else s
  }

  /** `text`: nothing is left of a string without visible characters. */
  function Clean(s: Text, limit: nat): Option<Text> {
    var t := TrimEnd(TrimStart(Blank(s)));
    if t == [] then None else Some(t[..Min(|t|, limit)])
  }

  // ---------------------------------------------------------------- sensitive keys

  /** What lower-casing leaves of a unit within a to z and 0 to 9; the Kelvin sign and the dotted I reach it too. */
  function Fold(u: Unit): string {
    if 0x41 <= u <= 0x5A then [(u + 0x20) as char]
    else if 0x61 <= u <= 0x7A || 0x30 <= u <= 0x39 then [u as char]
    else if u == 0x212A then "k"
    else if u == 0x0130 then "i"
    else ""
  }

  function Normalize(key: Text): string
    decreases |key|
  {
    if key == [] then "" else Fold(key[0]) + Normalize(key[1..])
  }

  const SAFE_CODES: set<string> := {"eventcode", "reasoncode", "statuscode"}

  const SENSITIVE: set<string> := {
    "authorization", "backupcode", "challengesecret", "challengetoken", "code", "cookie", "credentials",
    "currentpassword", "manualentrykey", "password", "provisioninguri", "recoverycode", "refreshtoken",
    "setcookie", "signature", "totpcode", "twofactorsecret"}

  predicate EndsWith(s: string, suffix: string) {
    |suffix| <= |s| && s[|s| - |suffix|..] == suffix
  }

  predicate SensitiveName(n: string) {
    && n !in SAFE_CODES
    && (n in SENSITIVE || EndsWith(n, "password") || EndsWith(n, "secret") || EndsWith(n, "signature")
        || EndsWith(n, "token") || EndsWith(n, "credential") || EndsWith(n, "apikey"))
  }

  predicate IsSensitive(key: Text) {
    SensitiveName(Normalize(key))
  }

  // ---------------------------------------------------------------- sanitizing

  const REDACTED: Text := Units("[REDACTED]")
  const TRUNCATED: Text := Units("[TRUNCATED]")
  const FIELD: Text := Units("field")

  function Digits(n: int): Text {
    if n < 0 then Units("-" + Slug.Decimal(-n)) else Units(Slug.Decimal(n))
  }

  function SafeKey(key: Text): Text {
    var t := Clean(key, MAX_KEY);
    if t.Some? then t.value else FIELD
  }

  /** Position of `key` among the fields, or their number. */
  function IndexOf(fields: seq<Field>, key: Text): (i: nat)
    ensures i <= |fields|
    ensures i < |fields| ==> fields[i].key == key
    ensures forall k :: 0 <= k < i ==> fields[k].key != key
  {
    if fields == [] || fields[0].key == key then 0 else 1 + IndexOf(fields[1..], key)
  }

  function Put(fields: seq<Field>, f: Field): seq<Field> {
    var i := IndexOf(fields, f.key);
    if i < |fields| then fields[i := f] else fields + [f]
  }

  /** `Object.fromEntries`: a repeated key keeps its last value. */
  function FromEntries(entries: seq<Field>): seq<Field>
    decreases |entries|
  {
    if entries == [] then [] else Put(FromEntries(entries[..|entries| - 1]), entries[|entries| - 1])
  }

  function Sanitize(v: Json, depth: nat): Json
    decreases MAX_DEPTH + 1 - depth, 2
  {
    if depth > MAX_DEPTH then Str(TRUNCATED)
    else
      match v
      case Null => Null
      case Bool(_) => v
      case Number(_) => v
      case NotFinite => Null
      case Str(text) => Str(var t := Clean(text, MAX_VALUE); if t.Some? then t.value else [])
      case Array(items) => Array(Items(items, depth))
      case BigInt(n) => Str(Digits(n)[..Min(|Digits(n)|, MAX_VALUE)])
      case Undefined => Null
      case Callable => Null
      case Object(fields) => Object(FromEntries(Entries(fields, depth)))
  }

  function Items(items: seq<Json>, depth: nat): (r: seq<Json>)
    requires depth <= MAX_DEPTH
    ensures |r| == Min(|items|, MAX_ENTRIES) && forall i :: 0 <= i < |r| ==> r[i] == Sanitize(items[i], depth + 1)
    decreases MAX_DEPTH + 1 - depth, 1
  {
    seq(Min(|items|, MAX_ENTRIES), i requires 0 <= i < Min(|items|, MAX_ENTRIES) => Sanitize(items[i], depth + 1))
  }

  function Entries(fields: seq<Field>, depth: nat): (r: seq<Field>)
    requires depth <= MAX_DEPTH
    ensures |r| == Min(|fields|, MAX_ENTRIES) && forall i :: 0 <= i < |r| ==> r[i] == Entry(fields[i], depth)
    decreases MAX_DEPTH + 1 - depth, 1
  {
    seq(Min(|fields|, MAX_ENTRIES), i requires 0 <= i < Min(|fields|, MAX_ENTRIES) => Entry(fields[i], depth))
  }

  function Entry(f: Field, depth: nat): Field
    requires depth <= MAX_DEPTH
    decreases MAX_DEPTH + 1 - depth, 0
  {
    Field(SafeKey(f.key), if IsSensitive(f.key) then Str(REDACTED) else Sanitize(f.item, depth + 1))
  }

  function SanitizeMetadata(v: Json): Json {
    Sanitize(if v.Null? || v.Undefined? then Object([]) else v, 0)
  }
}
