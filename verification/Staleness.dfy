/**
 The two tests that reject an access token minted before the last password
 change. Auth compares against the column, the gateway against the number Auth
 reports, where an unset column reads as zero.
 */
module Staleness {
  import opened Outcomes
  import opened Identity

  /** The `pwd_ts` claim of a decoded token: a number, or missing or of another type. */
  datatype PwdTs = Numeric(at: Time) | NotNumeric

  predicate AuthRejects(token: PwdTs, changedAt: Option<Time>) {
    changedAt.Some? && token.Numeric? && token.at < changedAt.value
  }

  predicate GatewayRejects(token: PwdTs, current: Time) {
    if current <= 0 then false
    else if token.NotNumeric? then true
    else token.at < current
  }

  function Reported(changedAt: Option<Time>): Time {
    if changedAt.None? then 0 else changedAt.value
  }

  /** For a positive timestamp a token the gateway lets through passes Auth too. */
  lemma GatewayAcceptanceImpliesAuthAcceptance(token: PwdTs, changedAt: Option<Time>)
    requires changedAt.Some? ==> changedAt.value > 0
    ensures !GatewayRejects(token, Reported(changedAt)) ==> !AuthRejects(token, changedAt)
  {
  }

  /** The only tokens the two tests disagree on: those without a number, and numbers below a column at or before the epoch. */
  lemma TestsDisagreeExactlyWhen(token: PwdTs, changedAt: Option<Time>)
    ensures GatewayRejects(token, Reported(changedAt)) && !AuthRejects(token, changedAt) <==>
            token.NotNumeric? && Reported(changedAt) > 0
    ensures !GatewayRejects(token, Reported(changedAt)) && AuthRejects(token, changedAt) <==>
            token.Numeric? && changedAt.Some? && token.at < changedAt.value <= 0
  {
  }
}
