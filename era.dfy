/** The era endpoint: the totals and reward-point statistics cached for one era. */
module EraHandler {
  import opened Common
  import opened Text
  import opened Errors
  import opened Keys
  import opened Store
  import opened Fields

  datatype EraResponse = EraResponse(
    eraIndex: nat,
    totalReward: nat,
    totalStake: nat,
    totalRewardPoints: nat,
    minRewardPoints: nat,
    maxRewardPoints: nat,
    avgRewardPoints: nat)

  /** `From<EraCache> for EraResponse`: every field parsed as its Rust type (`u32` or `u128`),
      0 when missing or unparsable. */
  function EraFromCache(data: Hash): (r: EraResponse)
    ensures r.eraIndex < U32_BOUND && r.totalRewardPoints < U32_BOUND
    ensures r.minRewardPoints < U32_BOUND && r.maxRewardPoints < U32_BOUND && r.avgRewardPoints < U32_BOUND
    ensures r.totalReward < U128_BOUND && r.totalStake < U128_BOUND
  {
    EraResponse(
      NumberField(data, "era_index", U32_BOUND),
      NumberField(data, "total_reward", U128_BOUND),
      NumberField(data, "total_stake", U128_BOUND),
      NumberField(data, "total_reward_points", U32_BOUND),
      NumberField(data, "min_reward_points", U32_BOUND),
      NumberField(data, "max_reward_points", U32_BOUND),
      NumberField(data, "avg_reward_points", U32_BOUND))
  }

  /** The key `get_era` reads: `format!("{}:era", era_index)`. */
  function EraKeyText(era: EraIndex): string {
    NatToString(era) + ":era"
  }

  /** The key `get_era` reads is the key the synchroniser writes an era under. */
  lemma EraKeyIsEraKey(era: EraIndex)
    ensures EraKeyText(era) == Render(Key.Era(era))
    ensures ParseKey(Split(EraKeyText(era), ':')) == Some(Key.Era(era))
  {
    ParseKeyRender(Key.Era(era));
  }

  /** `get_era`: the era's hash with `era_index` set to the requested index, decoded. The
      insert comes before the emptiness test, so the test never fails and an era with nothing
      cached is answered with zero totals rather than NotFound. */
  function GetEra(db: Db, era: EraIndex): (r: Result<EraResponse, ApiError>)
    ensures r.Ok? && r.value.eraIndex == era
  {
    var data := HashAt(db, EraKeyText(era))["era_index" := NatToString(era)];
    ParseNatToString(era, U32_BOUND);
    if |data| == 0 then Err(NotFound("era index " + NatToString(era) + " not available"))
    else Ok(EraFromCache(data))
  }

  /** An era nothing was cached for is answered with its index and zero everywhere else. */
  lemma GetEraUncached(db: Db, era: EraIndex)
    requires EraKeyText(era) !in db.hashes
    ensures GetEra(db, era) == Ok(EraResponse(era, 0, 0, 0, 0, 0, 0))
  {
  }

  /** A stored average with a fractional part (the text of a non-integral `f64`) is answered
      as 0, because the field is read as a `u32`. */
  lemma FractionalAverageReadsZero(data: Hash)
    requires "avg_reward_points" in data && '.' in data["avg_reward_points"]
    ensures EraFromCache(data).avgRewardPoints == 0
  {
    ParseRejectsPoint(data["avg_reward_points"], U32_BOUND);
  }
}
