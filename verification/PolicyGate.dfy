/** The TradingPolicy row, its runtime mirror, and the gate in front of every
    executable order. */
module PolicyGate {
  import opened Events
  import opened Text
  import opened Ledger

  datatype PolicyRow = PolicyRow(
    id: string,
    suiObject: string,
    authorizedAgent: Option<string>,
    allowedPairs: seq<string>,
    maxNotional: real,
    maxDailyLoss: real,
    paused: bool,
    version: int)

  datatype PolicyMirror = PolicyMirror(
    version: int,
    allowedPairs: seq<string>,
    maxNotional: real,
    maxDailyLoss: real,
    paused: bool,
    agentRevoked: bool,
    mirrorSynced: bool)

  datatype GateCode =
    | POLICY_NOT_FOUND
    | POLICY_MIRROR_STALE
    | POLICY_AGENT_REVOKED
    | POLICY_PAUSED
    | POLICY_PAIR_NOT_ALLOWED
    | POLICY_NOTIONAL_EXCEEDED
    | POLICY_DAILY_LOSS_EXCEEDED

  datatype GateResult = Passed | Blocked(code: GateCode)

  /** An agent that is missing or empty counts as revoked. */
  function MirrorFromRow(row: PolicyRow, synced: bool): PolicyMirror {
    PolicyMirror(row.version,
                 seq(|row.allowedPairs|, i requires 0 <= i < |row.allowedPairs| => NormalizePair(row.allowedPairs[i])),
                 row.maxNotional, row.maxDailyLoss, row.paused,
                 row.authorizedAgent.None? || row.authorizedAgent.value == "", synced)
  }

  /** PolicyGate.evaluate: the first condition that fails names the rejection. */
  function Evaluate(policy: Option<PolicyMirror>, pair: string, side: Side, notional: real, dailyLoss: real)
    : GateResult
  {
    if side == HOLD then Passed
    else if policy.None? then Blocked(POLICY_NOT_FOUND)
    else
      var p := policy.value;
      if !p.mirrorSynced then Blocked(POLICY_MIRROR_STALE)
      else if p.agentRevoked then Blocked(POLICY_AGENT_REVOKED)
      else if p.paused then Blocked(POLICY_PAUSED)
      else if NormalizePair(pair) !in (set q | q in p.allowedPairs :: NormalizePair(q)) then Blocked(POLICY_PAIR_NOT_ALLOWED)
      else if notional > p.maxNotional then Blocked(POLICY_NOTIONAL_EXCEEDED)
      else if dailyLoss >= p.maxDailyLoss then Blocked(POLICY_DAILY_LOSS_EXCEEDED)
      else Passed
  }

  lemma {:induction false} MirrorFields(row: PolicyRow, synced: bool)
    ensures var mirror := MirrorFromRow(row, synced);
            && mirror.mirrorSynced == synced && mirror.paused == row.paused && mirror.version == row.version
            && mirror.agentRevoked == (row.authorizedAgent.None? || row.authorizedAgent.value == "")
            && mirror.maxNotional == row.maxNotional && mirror.maxDailyLoss == row.maxDailyLoss
  {
  }

  lemma {:induction false} MirrorAllows(row: PolicyRow, synced: bool, pair: string)
    ensures NormalizePair(pair) in (set q | q in MirrorFromRow(row, synced).allowedPairs :: NormalizePair(q))
       <==> exists q :: q in row.allowedPairs && NormalizePair(q) == NormalizePair(pair)
  {
    hide NormalizePair;
    var mirror := MirrorFromRow(row, synced);
    if q :| q in row.allowedPairs && NormalizePair(q) == NormalizePair(pair) {
      var i :| 0 <= i < |row.allowedPairs| && row.allowedPairs[i] == q;
      assert mirror.allowedPairs[i] == NormalizePair(q);
      NormalizeIdempotent(q);
    }
    if q :| q in mirror.allowedPairs && NormalizePair(q) == NormalizePair(pair) {
      var i :| 0 <= i < |mirror.allowedPairs| && mirror.allowedPairs[i] == q;
      NormalizeIdempotent(row.allowedPairs[i]);
    }
  }

  /** What the gate means for the row behind the mirror: pairs are compared up
      to case, separator and surrounding blanks, although the mirror and the
      gate both normalize. */
  lemma {:induction false} GatePassesExactlyWhen(row: PolicyRow, synced: bool, pair: string, side: Side, notional: real, dailyLoss: real)
    requires side != HOLD
    ensures Evaluate(Some(MirrorFromRow(row, synced)), pair, side, notional, dailyLoss).Passed?
       <==> && synced && !row.paused
            && row.authorizedAgent.Some? && row.authorizedAgent.value != ""
            && (exists q :: q in row.allowedPairs && NormalizePair(q) == NormalizePair(pair))
            && notional <= row.maxNotional && dailyLoss < row.maxDailyLoss
  {
    MirrorAllows(row, synced, pair);
    MirrorFields(row, synced);
    hide NormalizePair, MirrorFromRow;
  }

  /** Which code a blocked order gets, over the stored row: the first that applies, from the
      missing row on. */
  lemma {:induction false} BlockedByExactlyWhen(row: Option<PolicyRow>, synced: bool, pair: string, side: Side, notional: real,
                                                dailyLoss: real)
    requires side != HOLD
    ensures var result := Evaluate(if row.Some? then Some(MirrorFromRow(row.value, synced)) else None, pair, side, notional, dailyLoss);
            var revoked := row.Some? && (row.value.authorizedAgent.None? || row.value.authorizedAgent.value == "");
            var allowed := row.Some? && exists q :: q in row.value.allowedPairs && NormalizePair(q) == NormalizePair(pair);
            && (result == Blocked(POLICY_NOT_FOUND) <==> row.None?)
            && (result == Blocked(POLICY_MIRROR_STALE) <==> row.Some? && !synced)
            && (result == Blocked(POLICY_AGENT_REVOKED) <==> row.Some? && synced && revoked)
            && (result == Blocked(POLICY_PAUSED) <==> row.Some? && synced && !revoked && row.value.paused)
            && (result == Blocked(POLICY_PAIR_NOT_ALLOWED) <==> row.Some? && synced && !revoked && !row.value.paused && !allowed)
            && (result == Blocked(POLICY_NOTIONAL_EXCEEDED)
                <==> allowed && synced && !revoked && !row.value.paused && notional > row.value.maxNotional)
            && (result == Blocked(POLICY_DAILY_LOSS_EXCEEDED)
                <==> allowed && synced && !revoked && !row.value.paused && notional <= row.value.maxNotional
                     && dailyLoss >= row.value.maxDailyLoss)
  {
    hide NormalizePair;
    if row.Some? {
      MirrorAllows(row.value, synced, pair);
    }
    hide MirrorFromRow;
    if row.Some? {
      var mirror := MirrorFromRow(row.value, synced);
      MirrorFields(row.value, synced);
    }
  }
}
