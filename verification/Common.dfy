/** Vocabulary shared by the components: optional columns and the clock. */
module Common {
  datatype Option<+T> = None | Some(value: T)

  /** Milliseconds since the epoch, as every timestamp column holds them. */
  type Time = nat

  /** Row identifiers. Fresh ones are drawn from a counter, so they are never reused. */
  type Id = nat

  /** How often a subscription is billed. */
  datatype Interval = Monthly | Annual

  const SECOND: nat := 1000
  const MINUTE: nat := 60 * SECOND
  const HOUR: nat := 60 * MINUTE
  const DAY: nat := 24 * HOUR

  function Min(a: nat, b: nat): nat {
    if a <= b then a else b
  }

  /** The block of `n` fresh identifiers that starts at `first`. */
  function FreshIds(first: Id, n: nat): (ids: set<Id>)
    ensures |ids| == n
    ensures forall k :: k in ids <==> first <= k < first + n
  {
    if n == 0 then {} else FreshIds(first, n - 1) + {first + n - 1}
  }
}
