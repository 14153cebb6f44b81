/** The durable finalize outbox: one row per delegation, claimed by workers under
    a lease and a claim token, acknowledged (deleted) or rejected (rescheduled) by
    whoever still holds that token. Times are nanoseconds. */
module FinalizeOutbox {
  import opened Common

  const MAX_ATTEMPTS := 32
  const SECOND := 1_000_000_000
  const MILLISECOND := 1_000_000

  datatype Row<P> = Row(
    payload: P,
    attempts: nat,
    nextAttemptAt: int,
    claimedUntil: Option<int>,
    claimedBy: string,
    claimToken: string,
    claimGeneration: nat)

  type Rows<P> = map<string, Row<P>>

  /** What a worker carries away from a successful claim. */
  datatype Claim<P> = Claim(delegation: string, owner: string, token: string, payload: P, attempts: nat)

  /** Insert, or overwrite payload and schedule; attempts survive an overwrite. */
  function Enqueue<P>(rows: Rows<P>, now: int, delegation: string, payload: P): Rows<P>
  {
    if delegation in rows then
      rows[delegation := rows[delegation].(payload := payload, nextAttemptAt := now,
                                           claimedUntil := None, claimedBy := "")]
    else
      rows[delegation := Row(payload, 0, now, None, "", "", 0)]
  }

  predicate Claimable<P>(row: Row<P>, now: int)
  {
    && row.nextAttemptAt <= now
    && row.attempts < MAX_ATTEMPTS
    && (row.claimedUntil.None? || row.claimedUntil.value < now)
  }

  function EffectiveOwner(owner: string): string
  {
    if owner == "" then "worker" else owner
  }

  /** Whole seconds, as the statement's interval counts them. */
  function EffectiveLease(lease: int): int
  {
    if lease <= 0 then 30 * SECOND else (lease / SECOND) * SECOND
  }

  function TakeClaim<P>(rows: Rows<P>, now: int, delegation: string, owner: string, lease: int, token: string)
    : (r: (Rows<P>, Option<Claim<P>>))
  {
    if delegation in rows && Claimable(rows[delegation], now) then
      var row := rows[delegation];
      var who := EffectiveOwner(owner);
      (rows[delegation := row.(claimedUntil := Some(now + EffectiveLease(lease)), claimedBy := who,
                               claimToken := token, claimGeneration := row.claimGeneration + 1)],
       Some(Claim(delegation, who, token, row.payload, row.attempts)))
    else
      (rows, None)
  }

  predicate HoldsClaim<P>(rows: Rows<P>, delegation: string, owner: string, token: string)
  {
    delegation in rows && rows[delegation].claimedBy == owner && rows[delegation].claimToken == token
  }

  function Acknowledge<P>(rows: Rows<P>, delegation: string, owner: string, token: string): Rows<P>
  {
    if HoldsClaim(rows, delegation, owner, token) then rows - {delegation} else rows
  }

  function Backoff(attempts: nat): int
  {
    Min(20 * (attempts + 1) * MILLISECOND, 30 * SECOND)
  }

  function Reject<P>(rows: Rows<P>, now: int, delegation: string, owner: string, token: string, attempts: nat): Rows<P>
  {
    if HoldsClaim(rows, delegation, owner, token) then
      rows[delegation := rows[delegation].(attempts := attempts + 1, nextAttemptAt := now + Backoff(attempts),
                                           claimedUntil := None, claimedBy := "", claimToken := "")]
    else rows
  }
}
