/** `AuditService.record`, which appends one row to the log. */
module AuditService {
  import opened Common
  import opened Audit
  import opened AuditSafety

  const RETENTION: nat := 365 * DAY

  datatype Input = Input(
    targetType: Text, targetId: Text, reasonCode: Text, requestId: Text, userAgent: Text, metadata: Json, occurredAt: Option<Time>)

  datatype Row = Row(
    targetType: Option<Text>, targetId: Option<Text>, reasonCode: Option<Text>, requestId: Option<Text>, userAgent: Option<Text>,
    metadata: Json, occurredAt: Time, expiresAt: Time)

  function RowFor(input: Input, now: Time): Row {
    var at := if input.occurredAt.Some? && input.occurredAt.value <= now then input.occurredAt.value else now;
    Row(Clean(input.targetType, 64), Clean(input.targetId, 255), Clean(input.reasonCode, 100), Clean(input.requestId, 128),
        Clean(input.userAgent, 512), SanitizeMetadata(input.metadata), at, at + RETENTION)
  }

  predicate Fits(t: Option<Text>, limit: nat) {
    t.Some? ==> t.value != [] && Printable(t.value, limit)
  }

  /** Every text of a row fits its column and is printable, its metadata is bounded, and it is not dated ahead. */
  lemma RowFits(input: Input, now: Time)
    ensures RowOk(RowFor(input, now), now)
  {
    CleanIsPrintable(input.targetType, 64);
    CleanIsPrintable(input.targetId, 255);
    CleanIsPrintable(input.reasonCode, 100);
    CleanIsPrintable(input.requestId, 128);
    CleanIsPrintable(input.userAgent, 512);
    SanitizedIsBounded(if input.metadata.Null? || input.metadata.Undefined? then Object([]) else input.metadata, 0);
  }

  /** Inputs that differ only under sensitive metadata keys leave the same row. */
  lemma RowHidesSecrets(a: Input, b: Input, now: Time)
    requires b == a.(metadata := b.metadata) && Alike(a.metadata, b.metadata)
    ensures RowFor(a, now) == RowFor(b, now)
  {
    MetadataSecretsDoNotShow(a.metadata, b.metadata);
  }

  /** What needs no cleaning is stored as it is, each text in its own column, and the date unless it lies ahead, for a year. */
  lemma RowKeepsTidy(input: Input, now: Time)
    requires Tidy(input.targetType, 64) && Tidy(input.targetId, 255) && Tidy(input.reasonCode, 100)
    requires Tidy(input.requestId, 128) && Tidy(input.userAgent, 512)
    ensures var r := RowFor(input, now);
            && r.targetType == Some(input.targetType) && r.targetId == Some(input.targetId) && r.reasonCode == Some(input.reasonCode)
            && r.requestId == Some(input.requestId) && r.userAgent == Some(input.userAgent)
            && r.occurredAt == (if input.occurredAt.Some? && input.occurredAt.value <= now then input.occurredAt.value else now)
            && r.expiresAt == r.occurredAt + 365 * DAY
  {
    CleanKeepsTidy(input.targetType, 64);
    CleanKeepsTidy(input.targetId, 255);
    CleanKeepsTidy(input.reasonCode, 100);
    CleanKeepsTidy(input.requestId, 128);
    CleanKeepsTidy(input.userAgent, 512);
  }

  /** So is plain metadata; missing metadata is an empty object. */
  lemma RowKeepsPlain(input: Input, now: Time, nesting: nat)
    requires nesting <= MAX_DEPTH && Plain(input.metadata, nesting)
    ensures RowFor(input, now).metadata == if input.metadata.Null? then Object([]) else input.metadata
  {
    if input.metadata.Null? {
      EmptyIsKept();
    } else {
      PlainIsKept(input.metadata, 0, nesting);
    }
  }

  lemma EmptyIsKept()
    ensures Sanitize(Object([]), 0) == Object([])
  {
    assert Plain(Object([]), 1);
    PlainIsKept(Object([]), 0, 1);
  }

  /** Every text fits its column and is printable, the metadata is bounded, and the row is not dated ahead. */
  predicate RowOk(r: Row, now: Time) {
    && Fits(r.targetType, 64) && Fits(r.targetId, 255) && Fits(r.reasonCode, 100) && Fits(r.requestId, 128)
    && Fits(r.userAgent, 512) && Bounded(r.metadata, MAX_DEPTH + 1)
    && r.occurredAt <= now && r.expiresAt == r.occurredAt + RETENTION
  }

  class Log {
    var clock: Time
    var rows: seq<Row>

    /** Every row ever written is within its limits. */
    ghost predicate Valid()
      reads this
    {
      forall i :: 0 <= i < |rows| ==> RowOk(rows[i], clock)
    }

    constructor ()
      ensures clock == 0 && rows == [] && Valid()
    {
      clock, rows := 0, [];
    }

    /** The log keeps every earlier row and grows by one that is within its limits and hides what its input keeps under sensitive keys. */
    method Record(input: Input)
      requires Valid()
      modifies this`rows
      ensures |rows| == |old(rows)| + 1 && old(rows) <= rows && Valid()
      ensures rows[|rows| - 1] == RowFor(input, clock)
      ensures forall other: Input :: other == input.(metadata := other.metadata) && Alike(input.metadata, other.metadata)
                                     ==> rows[|rows| - 1] == RowFor(other, clock)
    {
      RowFits(input, clock);
      forall other: Input | other == input.(metadata := other.metadata) && Alike(input.metadata, other.metadata)
        ensures RowFor(input, clock) == RowFor(other, clock)
      {
        RowHidesSecrets(input, other, clock);
      }
      rows := rows + [RowFor(input, clock)];
    }
  }
}
