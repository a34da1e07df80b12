/** What the synchroniser writes is what the endpoints answer: the chain details and
    the status flag of the info endpoint, the counts of validators and nominators, the
    active era the validators endpoint reads, and the era's reward-point statistics. */
module Consistency {
  import opened Common
  import opened Text
  import opened Keys
  import opened Store
  import opened Stats
  import opened ChainData
  import opened Fields
  import opened Sync
  import opened SyncNominators
  import opened SyncEras
  import opened SyncEvents
  import InfoHandler
  import EraHandler
  import ValidatorHandler

  /** A hash holding the fields `network` writes decodes to the chain's details. */
  lemma NetworkDecoded(data: Hash, chain: Chain)
    requires chain.properties.tokenDecimals < U8_BOUND && chain.properties.ss58Format < U8_BOUND
    requires forall f :: f in NetworkFields(chain) ==> f in data && data[f] == NetworkFields(chain)[f]
    ensures InfoHandler.ChainDetailsFrom(data) ==
      InfoHandler.ChainDetailsResponse(chain.chainName, chain.properties.tokenSymbol,
        chain.properties.tokenDecimals, chain.properties.ss58Format, chain.nodeUrl)
  {
    var n := NetworkFields(chain);
    assert "token_decimals" in n && "ss58_format" in n;
    NumberFieldOfRendered(data, "token_decimals", chain.properties.tokenDecimals, U8_BOUND);
    NumberFieldOfRendered(data, "ss58_format", chain.properties.ss58Format, U8_BOUND);
  }

  /** After `history` the info endpoint answers the chain's details, the flag down and the
      finish time. */
  lemma HistoryAnswered(db: Db, chain: Chain, now: nat, pkgName: string, pkgVersion: string)
    requires chain.properties.tokenDecimals < U8_BOUND && chain.properties.ss58Format < U8_BOUND
    requires now < U32_BOUND
    ensures var info := InfoHandler.GetInfo(HistoryStep(db, chain, now), pkgName, pkgVersion);
      info.chain == InfoHandler.ChainDetailsResponse(chain.chainName, chain.properties.tokenSymbol,
        chain.properties.tokenDecimals, chain.properties.ss58Format, chain.nodeUrl) &&
      !info.cache.syncing && info.cache.syncingFinishedAt == now
  {
    var db1 := HSet(db, INFO, StatusFields(Started, now));
    var db2 := HSet(db1, NETWORK, NetworkFields(chain));
    var db' := HistoryStep(db, chain, now);
    assert HashAt(db', NETWORK) == HashAt(db2, NETWORK);
    NetworkDecoded(HashAt(db', NETWORK), chain);
    HistoryResult(db, chain, now);
    NumberFieldOfRendered(HashAt(db', INFO), "syncing_finished_at", now, U32_BOUND);
  }

  /** After a handled era-payout event the info endpoint reports a synchronisation under way
      exactly when the handler failed: a failure is never cleared. */
  lemma PayoutAnswered(db: Db, chain: Chain, era: EraIndex, rate: (nat, nat) -> string, now: nat,
                       pkgName: string, pkgVersion: string)
    requires !Syncing(db)
    ensures var o := PayoutStep(db, chain, era, rate, now);
      InfoHandler.GetInfo(o.db, pkgName, pkgVersion).cache.syncing <==> o.fault.Some?
  {
    if PayoutStep(db, chain, era, rate, now).fault.Some? {
      FailedPayoutKeepsFlag(db, chain, era, rate, now);
    } else {
      PayoutLowersFlag(db, chain, era, rate, now);
    }
  }

  /** The active era written by `active_era` is the one `get_validators` reads. */
  lemma ActiveEraAnswered(db: Db, era: EraIndex)
    requires era < U32_BOUND
    ensures ValidatorHandler.ActiveEraOf(SetString(db, Render(Key.ActiveEra), NatToString(era))) == Some(era)
  {
    ParseNatToString(era, U32_BOUND);
  }

  /** The number of validators `validators` counted is the one the info endpoint answers,
      while it fits the `u32` the endpoint reads it as. */
  lemma ValidatorsCountAnswered(db: Db, chain: Chain, rate: (nat, nat) -> string, pkgName: string, pkgVersion: string)
    requires ValidatorsStep(db, chain, rate).fault.None?
    requires BondedCount(chain, chain.validators) < U32_BOUND
    ensures InfoHandler.GetInfo(ValidatorsStep(db, chain, rate).db, pkgName, pkgVersion).cache.validators ==
      BondedCount(chain, chain.validators)
  {
    ValidatorsCount(db, chain, rate);
    NumberFieldOfRendered(HashAt(ValidatorsStep(db, chain, rate).db, INFO), "validators",
      BondedCount(chain, chain.validators), U32_BOUND);
  }

  /** The same for the nominators: every nominator is counted. */
  lemma NominatorsCountAnswered(db: Db, chain: Chain, pkgName: string, pkgVersion: string)
    requires NominatorsStep(db, chain).fault.None?
    requires |chain.nominators| < U32_BOUND
    ensures InfoHandler.GetInfo(NominatorsStep(db, chain).db, pkgName, pkgVersion).cache.nominators ==
      |chain.nominators|
  {
    RunNominatorsCount(db, chain, chain.nominators, 0);
    NumberFieldOfRendered(HashAt(NominatorsStep(db, chain).db, INFO), "nominators", |chain.nominators|, U32_BOUND);
  }

  /** A member of a sequence is at most its sum. */
  lemma {:induction false} MemberAtMostSum(s: seq<nat>, x: nat)
    requires x in s
    ensures x <= Sum(s)
    decreases |s|
  {
    if s[0] != x {
      MemberAtMostSum(s[1..], x);
    }
  }

  /** The average `get_era` answers: the mean when it is a whole number, otherwise 0,
      because the text of a fractional `f64` does not parse as the `u32` it is read as. */
  function AnsweredMean(points: seq<nat>): nat {
    if |points| == 0 || Sum(points) % |points| != 0 then 0 else Sum(points) / |points|
  }

  lemma QuotientAtMost(a: nat, b: nat)
    requires b > 0
    ensures a / b <= a
  {
    var q := a / b;
    if q > a {
      ValidatorHandler.MulMonotone(q, 1, b);
      assert false;
    }
  }

  /** A hash holding the statistics texts decodes to the numbers they were written from. */
  lemma StatsDecoded(data: Hash, points: seq<nat>, total: nat)
    requires Sum(points) < U32_BOUND && total < U32_BOUND
    requires "total_reward_points" in data && data["total_reward_points"] == NatToString(total)
    requires "min_reward_points" in data && data["min_reward_points"] == NatToString(Min(points))
    requires "max_reward_points" in data && data["max_reward_points"] == NatToString(Max(points))
    requires "avg_reward_points" in data && data["avg_reward_points"] == MeanText(points)
    ensures var r := EraHandler.EraFromCache(data);
      r.totalRewardPoints == total && r.minRewardPoints == Min(points) && r.maxRewardPoints == Max(points) &&
      r.avgRewardPoints == AnsweredMean(points)
  {
    if |points| > 0 {
      MemberAtMostSum(points, Min(points));
      MemberAtMostSum(points, Max(points));
    }
    NumberFieldOfRendered(data, "total_reward_points", total, U32_BOUND);
    NumberFieldOfRendered(data, "min_reward_points", Min(points), U32_BOUND);
    NumberFieldOfRendered(data, "max_reward_points", Max(points), U32_BOUND);
    if '.' in MeanText(points) {
      EraHandler.FractionalAverageReadsZero(data);
    } else {
      if |points| > 0 {
        QuotientAtMost(Sum(points), |points|);
      }
      NumberFieldOfRendered(data, "avg_reward_points", AnsweredMean(points), U32_BOUND);
    }
  }

  /** After the statistics of an era are written, `get_era` answers the era's total points,
      the minimum and the maximum over its validators, and the average as `AnsweredMean`. */
  lemma EraStatsAnswered(o: Outcome, era: EraIndex, points: seq<nat>, total: nat)
    requires o.fault.None? && FinishEraPoints(o, era, points, total).fault.None?
    requires total < U32_BOUND
    ensures var r := EraHandler.GetEra(FinishEraPoints(o, era, points, total).db, era).value;
      r.eraIndex == era && r.totalRewardPoints == total &&
      r.minRewardPoints == Min(points) && r.maxRewardPoints == Max(points) &&
      r.avgRewardPoints == AnsweredMean(points)
  {
    var db' := FinishEraPoints(o, era, points, total).db;
    EraHandler.EraKeyIsEraKey(era);
    var data := HashAt(db', EraKey(era))["era_index" := NatToString(era)];
    assert EraHandler.GetEra(db', era) == Ok(EraHandler.EraFromCache(data));
    var st := EraStats(points, total).value;
    StatFields(o, era, points, total, st);
    StatsHashValues(NatToString(total), NatToString(Min(points)), NatToString(Max(points)),
                    MeanText(points), NatToString(MedianOf(points)));
    StatsDecoded(data, points, total);
  }

  /** The era's hash holds every statistic as it was computed. */
  lemma StatFields(o: Outcome, era: EraIndex, points: seq<nat>, total: nat, st: Hash)
    requires o.fault.None? && EraStats(points, total) == Ok(st)
    ensures Sum(points) < U32_BOUND
    ensures var h := HashAt(FinishEraPoints(o, era, points, total).db, EraKey(era));
      forall f :: f in st ==> f in h && h[f] == st[f]
  {
    forall f | f in st
      ensures f in HashAt(FinishEraPoints(o, era, points, total).db, EraKey(era))
      ensures HashAt(FinishEraPoints(o, era, points, total).db, EraKey(era))[f] == st[f]
    {
      FinishEraPointsField(o, era, points, total, f);
    }
  }

  /** The named statistics of a statistics hash. */
  lemma StatsHashValues(total: string, min: string, max: string, avg: string, median: string)
    ensures var h := StatsHash(total, min, max, avg, median);
      "total_reward_points" in h && h["total_reward_points"] == total &&
      "min_reward_points" in h && h["min_reward_points"] == min &&
      "max_reward_points" in h && h["max_reward_points"] == max &&
      "avg_reward_points" in h && h["avg_reward_points"] == avg
  {
  }

  /** The record `validators` writes holds the average points under "avg_reward_points" and has
      no "mean_reward_points" field: decoded as written, the validator endpoint answers a mean
      of 0 whatever the average was; decoded from the field written, it answers the average. */
  lemma MeanRewardPointsAnswered(db: Db, chain: Chain, era: EraIndex, stash: string, prefs: Prefs,
                                 rate: (nat, nat) -> string, avg: string)
    requires stash in chain.bonded && chain.historyDepth <= era
    ensures var data := Sync.ValidatorRecord(db, chain, era, stash, prefs, rate, avg);
      "mean_reward_points" !in data &&
      ValidatorHandler.ValidatorFromCacheAsWritten(data).meanRewardPoints == "0" &&
      ValidatorHandler.ValidatorFromCache(data).meanRewardPoints == avg
  {
    MeanDecoded(Sync.ValidatorRecord(db, chain, era, stash, prefs, rate, avg), avg);
  }

  /** A hash with the average under "avg_reward_points" and no "mean_reward_points" field. */
  lemma MeanDecoded(data: Hash, avg: string)
    requires "avg_reward_points" in data && data["avg_reward_points"] == avg && "mean_reward_points" !in data
    ensures ValidatorHandler.ValidatorFromCacheAsWritten(data).meanRewardPoints == "0"
    ensures ValidatorHandler.ValidatorFromCache(data).meanRewardPoints == avg
  {
  }
}
