/** `eras_history` and what it writes for one era: the era's total reward and total stake,
    a record per validator that earned points (its preferences, exposure and clipped
    exposure in that era), the validator's "era:points" member in its active-eras set, the
    era's points board, the era's points statistics and the boards of totals, maxima and
    minima over eras, and finally the era's `synced_at` mark. */
module SyncEras {
  import opened Common
  import opened Text
  import opened Errors
  import opened Keys
  import opened Store
  import opened Stats
  import opened ChainData
  import opened Sync

  /** The boards kept over all eras (under era 0), with the era index as member. */
  const TOTAL_POINTS_BOARD := Render(Key.BoardAtEra(0, BOARD_TOTAL_POINTS_ERAS))
  const MAX_POINTS_BOARD := Render(Key.BoardAtEra(0, BOARD_MAX_POINTS_ERAS))
  const MIN_POINTS_BOARD := Render(Key.BoardAtEra(0, BOARD_MIN_POINTS_ERAS))

  function EraKey(era: EraIndex): string {
    Render(Key.Era(era))
  }

  function ValidatorAtEraKey(era: EraIndex, stash: string): string {
    Render(Key.ValidatorAtEra(era, stash))
  }

  function PointsBoard(era: EraIndex): string {
    Render(Key.BoardAtEra(era, BOARD_POINTS_VALIDATORS))
  }

  // ---------------------------------------------------------------------------------
  // A validator's record at an era

  /** The nominators' shares added up in a `u128`: the total, or the overflow panic when the
      total does not fit. */
  function SharesSum(others: seq<nat>): Result<nat, string> {
    if Sum(others) < U128_BOUND then Ok(Sum(others)) else Err(ADD_OVERFLOW)
  }

  /** The loop of `set_eras_validator_stakers(_clipped)`: `others_stake += value` share by
      share; the running total only grows, so it overflows exactly when the whole sum does. */
  method OthersStake(others: seq<nat>) returns (r: Result<nat, string>)
    ensures r == SharesSum(others)
  {
    var total := 0;
    var i := 0;
    while i < |others|
      invariant 0 <= i <= |others|
      invariant total < U128_BOUND
      invariant total + Sum(others[i..]) == Sum(others)
    {
      assert others[i..][1..] == others[i + 1..];
      if total + others[i] >= U128_BOUND {
        return Err(ADD_OVERFLOW);
      }
      total := total + others[i];
      i := i + 1;
    }
    return Ok(total);
  }

  /** `set_eras_validator_prefs`: the commission in parts per billion and the blocked flag. */
  function PrefsFields(prefs: Prefs): Hash {
    map["commission" := NatToString(prefs.commission), "blocked" := BoolToString(prefs.blocked)]
  }

  /** `set_eras_validator_stakers`: the exposure's total and own stake, the nominators' shares
      summed and counted. */
  function StakersFields(e: Exposure): Result<Hash, string> {
    match SharesSum(e.others)
    case Err(p) => Err(p)
    case Ok(s) => Ok(map["total_stake" := NatToString(e.total), "own_stake" := NatToString(e.own),
                         "others_stake" := NatToString(s), "stakers" := NatToString(|e.others|)])
  }

  /** `set_eras_validator_stakers_clipped`: the clipped exposure's shares summed and counted. */
  function ClippedFields(e: Exposure): Result<Hash, string> {
    match SharesSum(e.others)
    case Err(p) => Err(p)
    case Ok(s) => Ok(map["others_stake_clipped" := NatToString(s), "stakers_clipped" := NatToString(|e.others|)])
  }

  method SetErasValidatorStakers(chain: Chain, era: EraIndex, stash: string) returns (r: Result<Hash, string>)
    ensures r == StakersFields(EraStakers(chain, era, stash))
  {
    var e := EraStakers(chain, era, stash);
    var s := OthersStake(e.others);
    match s {
      case Err(p) => r := Err(p);
      case Ok(v) =>
        r := Ok(map["total_stake" := NatToString(e.total), "own_stake" := NatToString(e.own),
                    "others_stake" := NatToString(v), "stakers" := NatToString(|e.others|)]);
    }
  }

  method SetErasValidatorStakersClipped(chain: Chain, era: EraIndex, stash: string) returns (r: Result<Hash, string>)
    ensures r == ClippedFields(EraStakersClipped(chain, era, stash))
  {
    var e := EraStakersClipped(chain, era, stash);
    var s := OthersStake(e.others);
    match s {
      case Err(p) => r := Err(p);
      case Ok(v) => r := Ok(map["others_stake_clipped" := NatToString(v), "stakers_clipped" := NatToString(|e.others|)]);
    }
  }

  /** The record of a validator at an era: active, its points, then the three groups of
      fields in the order the source fills them; a share sum that overflows panics. */
  function EraValidatorData(chain: Chain, era: EraIndex, stash: string, points: nat): Result<Hash, string> {
    ValidatorRecord(points, EraPrefs(chain, era, stash), EraStakers(chain, era, stash), EraStakersClipped(chain, era, stash))
  }

  function ValidatorRecord(points: nat, prefs: Prefs, e: Exposure, c: Exposure): Result<Hash, string> {
    var base := map["active" := "true", "reward_points" := NatToString(points)] + PrefsFields(prefs);
    match StakersFields(e)
    case Err(p) => Err(p)
    case Ok(s) =>
      match ClippedFields(c)
      case Err(p) => Err(p)
      case Ok(cs) => Ok(base + s + cs)
  }

  /** Both share sums of the validator's exposures fit in a `u128`. */
  predicate SumsFit(chain: Chain, era: EraIndex, stash: string) {
    Sum(EraStakers(chain, era, stash).others) < U128_BOUND &&
    Sum(EraStakersClipped(chain, era, stash).others) < U128_BOUND
  }

  /** The record is written unless a share sum overflows, which panics. */
  lemma EraValidatorDataOk(chain: Chain, era: EraIndex, stash: string, points: nat)
    ensures EraValidatorData(chain, era, stash, points).Ok? <==> SumsFit(chain, era, stash)
    ensures EraValidatorData(chain, era, stash, points).Err? ==>
      EraValidatorData(chain, era, stash, points).error == ADD_OVERFLOW
  {
  }

  /** The record holds the validator's points, its era commission and its exposures' share
      sums and counts. */
  lemma EraValidatorDataRecord(chain: Chain, era: EraIndex, stash: string, points: nat)
    requires SumsFit(chain, era, stash)
    ensures var data, e, c := EraValidatorData(chain, era, stash, points).value, EraStakers(chain, era, stash), EraStakersClipped(chain, era, stash);
      data["active"] == "true" && data["reward_points"] == NatToString(points) &&
      data["commission"] == NatToString(EraPrefs(chain, era, stash).commission) &&
      data["others_stake"] == NatToString(Sum(e.others)) && data["stakers"] == NatToString(|e.others|) &&
      data["others_stake_clipped"] == NatToString(Sum(c.others)) && data["stakers_clipped"] == NatToString(|c.others|)
  {
    ValidatorRecordFields(points, EraPrefs(chain, era, stash), EraStakers(chain, era, stash), EraStakersClipped(chain, era, stash));
  }

  lemma ValidatorRecordFields(points: nat, prefs: Prefs, e: Exposure, c: Exposure)
    requires Sum(e.others) < U128_BOUND && Sum(c.others) < U128_BOUND
    ensures var data := ValidatorRecord(points, prefs, e, c).value;
      data["active"] == "true" && data["reward_points"] == NatToString(points) &&
      data["commission"] == NatToString(prefs.commission) &&
      data["others_stake"] == NatToString(Sum(e.others)) && data["stakers"] == NatToString(|e.others|) &&
      data["others_stake_clipped"] == NatToString(Sum(c.others)) && data["stakers_clipped"] == NatToString(|c.others|)
  {
    var base := map["active" := "true", "reward_points" := NatToString(points)] + PrefsFields(prefs);
    var s, cs := StakersFields(e).value, ClippedFields(c).value;
    StakersFieldsValues(e);
    ClippedFieldsValues(c);
    assert ValidatorRecord(points, prefs, e, c).value == base + s + cs;
    BaseFieldsKept(points, prefs, s, cs);
    StakersFieldsKept(base, s, cs);
  }

  /** The clipped group does not overwrite the exposure's share sum and count. */
  lemma StakersFieldsKept(base: Hash, s: Hash, cs: Hash)
    requires "others_stake" in s && "stakers" in s
    requires cs.Keys == {"others_stake_clipped", "stakers_clipped"}
    ensures (base + s + cs)["others_stake"] == s["others_stake"] && (base + s + cs)["stakers"] == s["stakers"]
  {
    assert "others_stake" !in cs && "stakers" !in cs;
  }

  lemma StakersFieldsValues(e: Exposure)
    requires Sum(e.others) < U128_BOUND
    ensures StakersFields(e).Ok?
    ensures var s := StakersFields(e).value;
      s.Keys == {"total_stake", "own_stake", "others_stake", "stakers"} &&
      s["others_stake"] == NatToString(Sum(e.others)) && s["stakers"] == NatToString(|e.others|)
  {
  }

  lemma ClippedFieldsValues(c: Exposure)
    requires Sum(c.others) < U128_BOUND
    ensures ClippedFields(c).Ok?
    ensures var cs := ClippedFields(c).value;
      cs.Keys == {"others_stake_clipped", "stakers_clipped"} &&
      cs["others_stake_clipped"] == NatToString(Sum(c.others)) && cs["stakers_clipped"] == NatToString(|c.others|)
  {
  }

  /** The first fields of the record are not overwritten by the exposures' groups. */
  lemma BaseFieldsKept(points: nat, prefs: Prefs, s: Hash, cs: Hash)
    requires s.Keys == {"total_stake", "own_stake", "others_stake", "stakers"}
    requires cs.Keys == {"others_stake_clipped", "stakers_clipped"}
    ensures var data := map["active" := "true", "reward_points" := NatToString(points)] + PrefsFields(prefs) + s + cs;
      data["active"] == "true" && data["reward_points"] == NatToString(points) &&
      data["commission"] == NatToString(prefs.commission)
  {
    assert "active" !in s && "reward_points" !in s && "commission" !in s;
    assert "active" !in cs && "reward_points" !in cs && "commission" !in cs;
  }

  // ---------------------------------------------------------------------------------
  // The validators of an era

  /** One validator's writes: its record, its member in its active-eras set under the era as
      score, and its entry on the era's points board. */
  function WriteEraValidator(db: Db, era: EraIndex, stash: string, points: nat, data: Hash): Db {
    ZAdd(ZAdd(HSet(db, ValidatorAtEraKey(era, stash), data), ActiveErasKey(stash), era, MemberText(era, points)),
         PointsBoard(era), points, stash)
  }

  function EraValidatorStep(db: Db, chain: Chain, era: EraIndex, stash: string, points: nat): Outcome {
    match EraValidatorData(chain, era, stash, points)
    case Err(p) => Outcome(db, Some(Panicked(p)))
    case Ok(data) => Outcome(WriteEraValidator(db, era, stash, points, data), None)
  }

  /** The loop over the era's `individual` points, in the order the node gives them, over
      any step that may stop the loop with a fault. */
  function RunItems(db: Db, items: seq<(string, nat)>, step: (Db, string, nat) -> Outcome): Outcome
    decreases |items|
  {
    if items == [] then Outcome(db, None)
    else
      var o := step(db, items[0].0, items[0].1);
      if o.fault.Some? then o else RunItems(o.db, items[1..], step)
  }

  function EraValidatorPass(chain: Chain, era: EraIndex): (Db, string, nat) -> Outcome {
    (db: Db, stash: string, points: nat) => EraValidatorStep(db, chain, era, stash, points)
  }

  /** The points pushed into `reward_points`, one per validator. */
  function PointsOf(items: seq<(string, nat)>): seq<nat> {
    seq(|items|, j requires 0 <= j < |items| => items[j].1)
  }

  /** The era's statistics hash; the mean's `u32` sum panics when the points reach 2^32. */
  function EraStats(points: seq<nat>, total: nat): Result<Hash, string> {
    if Sum(points) >= U32_BOUND then Err(ADD_OVERFLOW)
    else Ok(StatsHash(NatToString(total), NatToString(Min(points)), NatToString(Max(points)),
                      MeanText(points), NatToString(MedianOf(points))))
  }

  function StatsHash(total: string, min: string, max: string, avg: string, median: string): Hash {
    map["total_reward_points" := total, "min_reward_points" := min, "max_reward_points" := max,
        "avg_reward_points" := avg, "median_reward_points" := median]
  }

  /** The statistics hash, then the era on the boards of totals, maxima and minima. */
  function WriteEraStats(db: Db, era: EraIndex, points: seq<nat>, total: nat, data: Hash): Db {
    var member := NatToString(era);
    ZAdd(ZAdd(ZAdd(HSet(db, EraKey(era), data), TOTAL_POINTS_BOARD, total, member),
              MAX_POINTS_BOARD, Max(points), member),
         MIN_POINTS_BOARD, Min(points), member)
  }

  /** What follows the validators' loop: nothing when it stopped, else the statistics. */
  function FinishEraPoints(o: Outcome, era: EraIndex, points: seq<nat>, total: nat): Outcome {
    if o.fault.Some? then o
    else
      match EraStats(points, total)
      case Err(p) => Outcome(o.db, Some(Panicked(p)))
      case Ok(data) => Outcome(WriteEraStats(o.db, era, points, total, data), None)
  }

  /** `eras_reward_points`. */
  function EraPointsStep(db: Db, chain: Chain, era: EraIndex): Outcome {
    var ep := EraRewardPoints(chain, era);
    FinishEraPoints(RunItems(db, ep.individual, EraValidatorPass(chain, era)), era, PointsOf(ep.individual), ep.total)
  }

  method SyncEraValidator(cache: Cache, chain: Chain, era: EraIndex, stash: string, points: nat)
    returns (fault: Option<Fault<SyncError>>)
    modifies cache
    ensures Outcome(cache.State(), fault) == EraValidatorPass(chain, era)(old(cache.State()), stash, points)
  {
    var data := map["active" := "true", "reward_points" := NatToString(points)] + PrefsFields(EraPrefs(chain, era, stash));
    var stakers := SetErasValidatorStakers(chain, era, stash);
    if stakers.Err? {
      return Some(Panicked(stakers.error));
    }
    var clipped := SetErasValidatorStakersClipped(chain, era, stash);
    if clipped.Err? {
      return Some(Panicked(clipped.error));
    }
    data := data + stakers.value + clipped.value;
    cache.HSetFields(ValidatorAtEraKey(era, stash), data);
    cache.ZAddMember(ActiveErasKey(stash), era, MemberText(era, points));
    cache.ZAddMember(PointsBoard(era), points, stash);
    fault := None;
  }

  /** The loop of `eras_reward_points`. */
  method SyncEraValidators(cache: Cache, chain: Chain, era: EraIndex, items: seq<(string, nat)>)
    returns (fault: Option<Fault<SyncError>>)
    modifies cache
    ensures Outcome(cache.State(), fault) == RunItems(old(cache.State()), items, EraValidatorPass(chain, era))
  {
    ghost var pass := EraValidatorPass(chain, era);
    ghost var run := RunItems(cache.State(), items, pass);
    var i := 0;
    assert items[0..] == items;
    while i < |items|
      invariant 0 <= i <= |items|
      invariant RunItems(cache.State(), items[i..], pass) == run
    {
      assert items[i..][1..] == items[i + 1..];
      fault := SyncEraValidator(cache, chain, era, items[i].0, items[i].1);
      if fault.Some? {
        return;
      }
      i := i + 1;
    }
    fault := None;
  }

  /** The statistics of `eras_reward_points`. */
  method SyncEraStats(cache: Cache, era: EraIndex, points: seq<nat>, total: nat) returns (fault: Option<Fault<SyncError>>)
    modifies cache
    ensures Outcome(cache.State(), fault) == FinishEraPoints(Outcome(old(cache.State()), None), era, points, total)
  {
    if Sum(points) >= U32_BOUND {
      return Some(Panicked(ADD_OVERFLOW));
    }
    var median := MedianOfCopy(points);
    var data := StatsHash(NatToString(total), NatToString(Min(points)), NatToString(Max(points)),
                          MeanText(points), NatToString(median));
    WriteStats(cache, era, points, total, data);
    fault := None;
  }

  /** The points copied into a vector, which `median` sorts in place. */
  method MedianOfCopy(points: seq<nat>) returns (m: nat)
    ensures m == MedianOf(points)
  {
    var a := new nat[|points|](j requires 0 <= j < |points| => points[j]);
    assert a[..] == points;
    m := Median(a);
  }

  method WriteStats(cache: Cache, era: EraIndex, points: seq<nat>, total: nat, data: Hash)
    modifies cache
    ensures cache.State() == WriteEraStats(old(cache.State()), era, points, total, data)
  {
    cache.HSetFields(EraKey(era), data);
    cache.ZAddMember(TOTAL_POINTS_BOARD, total, NatToString(era));
    cache.ZAddMember(MAX_POINTS_BOARD, Max(points), NatToString(era));
    cache.ZAddMember(MIN_POINTS_BOARD, Min(points), NatToString(era));
  }

  method ErasRewardPoints(cache: Cache, chain: Chain, era: EraIndex) returns (fault: Option<Fault<SyncError>>)
    modifies cache
    ensures Outcome(cache.State(), fault) == EraPointsStep(old(cache.State()), chain, era)
  {
    var ep := EraRewardPoints(chain, era);
    fault := SyncEraValidators(cache, chain, era, ep.individual);
    if fault.Some? {
      return;
    }
    fault := SyncEraStats(cache, era, PointsOf(ep.individual), ep.total);
  }

  // ---------------------------------------------------------------------------------
  // eras_history

  /** With the force flag: the era's total reward (0 when the node has none) and total
      stake, the points, and last the time the era was synced. */
  function ErasHistoryForced(db: Db, chain: Chain, era: EraIndex, now: nat): Outcome {
    var db1 := HSetField(db, EraKey(era), "total_reward", NatToString(EraReward(chain, era)));
    var db2 := HSetField(db1, EraKey(era), "total_stake", NatToString(EraTotalStake(chain, era)));
    var o := EraPointsStep(db2, chain, era);
    if o.fault.Some? then o else Outcome(HSetField(o.db, EraKey(era), "synced_at", NatToString(now)), None)
  }

  /** `eras_history(era, force)`: forced, or when the era has no `synced_at` yet, the era is
      synced; otherwise nothing is written. `now` is the clock's Unix time. */
  function ErasHistoryStep(db: Db, chain: Chain, era: EraIndex, force: Option<bool>, now: nat): Outcome {
    if force == Some(true) || "synced_at" !in HashAt(db, EraKey(era)) then ErasHistoryForced(db, chain, era, now)
    else Outcome(db, None)
  }

  /** Without the force flag the method checks `synced_at` and, when it is missing, calls
      itself with the flag set, as the source does. */
  method ErasHistory(cache: Cache, chain: Chain, era: EraIndex, force: Option<bool>, now: nat)
    returns (fault: Option<Fault<SyncError>>)
    modifies cache
    ensures Outcome(cache.State(), fault) == ErasHistoryStep(old(cache.State()), chain, era, force, now)
    decreases if force == Some(true) then 0 else 1
  {
    if force == Some(true) {
      cache.SetField(EraKey(era), "total_reward", NatToString(EraReward(chain, era)));
      cache.SetField(EraKey(era), "total_stake", NatToString(EraTotalStake(chain, era)));
      fault := ErasRewardPoints(cache, chain, era);
      if fault.Some? {
        return;
      }
      cache.SetField(EraKey(era), "synced_at", NatToString(now));
      return None;
    }
    var synced := cache.HExists(EraKey(era), "synced_at");
    if synced {
      return None;
    }
    fault := ErasHistory(cache, chain, era, Some(true), now);
  }

  // ---------------------------------------------------------------------------------
  // Properties of one validator's step, as properties of any step the loop may run

  ghost predicate FaultsUnless(step: (Db, string, nat) -> Outcome, chain: Chain, era: EraIndex) {
    forall db: Db, s: string, p: nat :: step(db, s, p).fault.None? <==> SumsFit(chain, era, s)
  }

  ghost predicate KeepsHash(step: (Db, string, nat) -> Outcome, key: string) {
    forall db: Db, s: string, p: nat :: HashAt(step(db, s, p).db, key) == HashAt(db, key)
  }

  ghost predicate KeepsMembers(step: (Db, string, nat) -> Outcome, era: EraIndex) {
    forall db: Db, s: string, p: nat, s2: string, p2: nat ::
      HasMember(db, ActiveErasKey(s2), MemberText(era, p2), era) ==>
      HasMember(step(db, s, p).db, ActiveErasKey(s2), MemberText(era, p2), era)
  }

  ghost predicate AddsMember(step: (Db, string, nat) -> Outcome, era: EraIndex) {
    forall db: Db, s: string, p: nat ::
      step(db, s, p).fault.None? ==> HasMember(step(db, s, p).db, ActiveErasKey(s), MemberText(era, p), era)
  }

  /** The member `m` is in the sorted set at `key` with score `score`. */
  predicate HasMember(db: Db, key: string, m: string, score: int) {
    key in db.zsets && m in db.zsets[key] && db.zsets[key][m] == score
  }

  /** The validators' records are other keys than the era's hash. */
  lemma ValidatorAtEraIsNoEraKey(era: EraIndex, e: EraIndex, stash: string)
    ensures ValidatorAtEraKey(e, stash) != EraKey(era)
  {
    var v, k := ValidatorAtEraKey(e, stash), EraKey(era);
    assert v[|v| - 1] == 'l' && k[|k| - 1] == 'a';
  }

  /** A board is never a validator's active-eras set: one ends with "board", the other with
      "active". */
  lemma BoardIsNoActiveErasKey(e: EraIndex, n: string, s: string)
    ensures Render(Key.BoardAtEra(e, n)) != ActiveErasKey(s)
  {
    var b, a := Render(Key.BoardAtEra(e, n)), ActiveErasKey(s);
    assert b[|b| - 1] == 'd' && a[|a| - 1] == 'e';
  }

  lemma EraValidatorStepFault(db: Db, chain: Chain, era: EraIndex, stash: string, points: nat)
    ensures EraValidatorStep(db, chain, era, stash, points).fault.None? <==> SumsFit(chain, era, stash)
  {
    EraValidatorDataOk(chain, era, stash, points);
  }

  /** One validator's writes leave every hash but its record as it was. */
  lemma EraValidatorStepHashes(db: Db, chain: Chain, era: EraIndex, stash: string, points: nat, k: string)
    requires k != ValidatorAtEraKey(era, stash)
    ensures HashAt(EraValidatorStep(db, chain, era, stash, points).db, k) == HashAt(db, k)
  {
    match EraValidatorData(chain, era, stash, points) {
      case Err(_) =>
      case Ok(data) =>
        var db1 := HSet(db, ValidatorAtEraKey(era, stash), data);
        assert HashAt(db1, k) == HashAt(db, k);
        assert WriteEraValidator(db, era, stash, points, data).hashes == db1.hashes;
    }
  }

  /** Every member written to an active-eras set during an era's sync has the era as score,
      so a member already there with that score keeps it. */
  lemma EraValidatorStepKeepsMember(db: Db, chain: Chain, era: EraIndex, stash: string, points: nat, s: string, p: nat)
    requires HasMember(db, ActiveErasKey(s), MemberText(era, p), era)
    ensures HasMember(EraValidatorStep(db, chain, era, stash, points).db, ActiveErasKey(s), MemberText(era, p), era)
  {
    match EraValidatorData(chain, era, stash, points) {
      case Err(_) =>
      case Ok(data) =>
        BoardIsNoActiveErasKey(era, BOARD_POINTS_VALIDATORS, s);
        var db1 := HSet(db, ValidatorAtEraKey(era, stash), data);
        assert HasMember(db1, ActiveErasKey(s), MemberText(era, p), era);
    }
  }

  lemma EraValidatorStepAddsMember(db: Db, chain: Chain, era: EraIndex, stash: string, points: nat)
    requires EraValidatorStep(db, chain, era, stash, points).fault.None?
    ensures HasMember(EraValidatorStep(db, chain, era, stash, points).db, ActiveErasKey(stash), MemberText(era, points), era)
  {
    BoardIsNoActiveErasKey(era, BOARD_POINTS_VALIDATORS, stash);
  }

  lemma EraValidatorPassProperties(chain: Chain, era: EraIndex)
    ensures FaultsUnless(EraValidatorPass(chain, era), chain, era)
    ensures KeepsHash(EraValidatorPass(chain, era), EraKey(era))
    ensures KeepsMembers(EraValidatorPass(chain, era), era)
    ensures AddsMember(EraValidatorPass(chain, era), era)
  {
    var step := EraValidatorPass(chain, era);
    forall db: Db, s: string, p: nat
      ensures step(db, s, p).fault.None? <==> SumsFit(chain, era, s)
      ensures HashAt(step(db, s, p).db, EraKey(era)) == HashAt(db, EraKey(era))
      ensures step(db, s, p).fault.None? ==> HasMember(step(db, s, p).db, ActiveErasKey(s), MemberText(era, p), era)
    {
      EraValidatorStepFault(db, chain, era, s, p);
      ValidatorAtEraIsNoEraKey(era, era, s);
      EraValidatorStepHashes(db, chain, era, s, p, EraKey(era));
      if step(db, s, p).fault.None? {
        EraValidatorStepAddsMember(db, chain, era, s, p);
      }
    }
    forall db: Db, s: string, p: nat, s2: string, p2: nat |
      HasMember(db, ActiveErasKey(s2), MemberText(era, p2), era)
      ensures HasMember(step(db, s, p).db, ActiveErasKey(s2), MemberText(era, p2), era)
    {
      EraValidatorStepKeepsMember(db, chain, era, s, p, s2, p2);
    }
  }

  // ---------------------------------------------------------------------------------
  // Properties of the loop

  /** The loop runs to the end exactly when every validator's share sums fit. */
  lemma {:induction false} RunItemsFault(db: Db, items: seq<(string, nat)>, step: (Db, string, nat) -> Outcome,
                                         chain: Chain, era: EraIndex)
    requires FaultsUnless(step, chain, era)
    ensures RunItems(db, items, step).fault.None? <==> forall i :: 0 <= i < |items| ==> SumsFit(chain, era, items[i].0)
    decreases |items|
  {
    if items != [] {
      var o := step(db, items[0].0, items[0].1);
      if o.fault.None? {
        assert RunItems(db, items, step) == RunItems(o.db, items[1..], step);
        RunItemsFault(o.db, items[1..], step, chain, era);
        assert forall i :: 1 <= i < |items| ==> items[i] == items[1..][i - 1];
      }
    }
  }

  lemma {:induction false} RunItemsKeepsHash(db: Db, items: seq<(string, nat)>, step: (Db, string, nat) -> Outcome, key: string)
    requires KeepsHash(step, key)
    ensures HashAt(RunItems(db, items, step).db, key) == HashAt(db, key)
    decreases |items|
  {
    if items != [] {
      var o := step(db, items[0].0, items[0].1);
      if o.fault.None? {
        RunItemsKeepsHash(o.db, items[1..], step, key);
      }
    }
  }

  lemma {:induction false} RunItemsKeepsMember(db: Db, items: seq<(string, nat)>, step: (Db, string, nat) -> Outcome,
                                               era: EraIndex, s: string, p: nat)
    requires KeepsMembers(step, era) && HasMember(db, ActiveErasKey(s), MemberText(era, p), era)
    ensures HasMember(RunItems(db, items, step).db, ActiveErasKey(s), MemberText(era, p), era)
    decreases |items|
  {
    if items != [] {
      var o := step(db, items[0].0, items[0].1);
      if o.fault.None? {
        RunItemsKeepsMember(o.db, items[1..], step, era, s, p);
      }
    }
  }

  /** After a loop that ran to the end, every validator's "era:points" member is in its
      active-eras set with the era as score. */
  lemma {:induction false} RunItemsMembers(db: Db, items: seq<(string, nat)>, step: (Db, string, nat) -> Outcome,
                                           era: EraIndex, i: nat)
    requires KeepsMembers(step, era) && AddsMember(step, era)
    requires i < |items| && RunItems(db, items, step).fault.None?
    ensures HasMember(RunItems(db, items, step).db, ActiveErasKey(items[i].0), MemberText(era, items[i].1), era)
    decreases |items|
  {
    var o := step(db, items[0].0, items[0].1);
    assert RunItems(db, items, step) == RunItems(o.db, items[1..], step);
    if i == 0 {
      RunItemsKeepsMember(o.db, items[1..], step, era, items[0].0, items[0].1);
    } else {
      RunItemsMembers(o.db, items[1..], step, era, i - 1);
    }
  }

  // ---------------------------------------------------------------------------------
  // Properties of `eras_reward_points` and `eras_history`

  /** The step runs to the end exactly when every validator's share sums fit and the era's
      points add up to less than 2^32; the panic is an addition overflow. */
  lemma EraPointsFault(db: Db, chain: Chain, era: EraIndex)
    ensures var ep := EraRewardPoints(chain, era);
      EraPointsStep(db, chain, era).fault.None? <==>
        (forall i :: 0 <= i < |ep.individual| ==> SumsFit(chain, era, ep.individual[i].0)) &&
        Sum(PointsOf(ep.individual)) < U32_BOUND
    ensures EraPointsStep(db, chain, era).fault.None? || EraPointsStep(db, chain, era).fault == Some(Panicked(ADD_OVERFLOW))
  {
    var ep := EraRewardPoints(chain, era);
    var o := RunItems(db, ep.individual, EraValidatorPass(chain, era));
    EraValidatorPassProperties(chain, era);
    RunItemsFault(db, ep.individual, EraValidatorPass(chain, era), chain, era);
    RunItemsPanics(db, ep.individual, chain, era);
    FinishEraPointsFault(o, era, PointsOf(ep.individual), ep.total);
  }

  /** The statistics fail only on the mean's overflow. */
  lemma FinishEraPointsFault(o: Outcome, era: EraIndex, points: seq<nat>, total: nat)
    ensures var r := FinishEraPoints(o, era, points, total);
      (r.fault.None? <==> o.fault.None? && Sum(points) < U32_BOUND) &&
      (o.fault.None? && r.fault.Some? ==> r.fault == Some(Panicked(ADD_OVERFLOW))) &&
      (o.fault.Some? ==> r == o)
  {
  }

  /** The only fault a validator can raise is the overflow panic. */
  lemma {:induction false} RunItemsPanics(db: Db, items: seq<(string, nat)>, chain: Chain, era: EraIndex)
    ensures var o := RunItems(db, items, EraValidatorPass(chain, era));
      o.fault.None? || o.fault == Some(Panicked(ADD_OVERFLOW))
    decreases |items|
  {
    if items != [] {
      var step := EraValidatorPass(chain, era);
      var o := step(db, items[0].0, items[0].1);
      EraValidatorDataOk(chain, era, items[0].0, items[0].1);
      if o.fault.None? {
        assert RunItems(db, items, step) == RunItems(o.db, items[1..], step);
        RunItemsPanics(o.db, items[1..], chain, era);
      }
    }
  }

  /** The statistics' writes touch only the era's hash and the boards over eras. */
  lemma WriteEraStatsKeepsMember(db: Db, era: EraIndex, points: seq<nat>, total: nat, data: Hash, s: string, m: string, score: int)
    requires HasMember(db, ActiveErasKey(s), m, score)
    ensures HasMember(WriteEraStats(db, era, points, total, data), ActiveErasKey(s), m, score)
  {
    BoardIsNoActiveErasKey(0, BOARD_TOTAL_POINTS_ERAS, s);
    BoardIsNoActiveErasKey(0, BOARD_MAX_POINTS_ERAS, s);
    BoardIsNoActiveErasKey(0, BOARD_MIN_POINTS_ERAS, s);
    var db1 := HSet(db, EraKey(era), data);
    assert HasMember(db1, ActiveErasKey(s), m, score);
  }

  /** The era's hash after the statistics: their fields, and the others as before. */
  lemma WriteEraStatsFields(db: Db, era: EraIndex, points: seq<nat>, total: nat, data: Hash, f: string)
    ensures FieldAt(WriteEraStats(db, era, points, total, data), EraKey(era), f) ==
      if f in data then Some(data[f]) else FieldAt(db, EraKey(era), f)
  {
    var db1 := HSet(db, EraKey(era), data);
    assert WriteEraStats(db, era, points, total, data).hashes == db1.hashes;
  }

  /** After `eras_reward_points` ran to the end, every validator that earned points in the
      era has the member "era:points" with score era, and the member reads back as the
      points it was written from. */
  lemma EraPointsMembers(db: Db, chain: Chain, era: EraIndex, i: nat)
    requires EraPointsStep(db, chain, era).fault.None?
    requires i < |EraRewardPoints(chain, era).individual|
    requires EraRewardPoints(chain, era).individual[i].1 < U32_BOUND
    ensures var (stash, points) := EraRewardPoints(chain, era).individual[i];
      HasMember(EraPointsStep(db, chain, era).db, ActiveErasKey(stash), MemberText(era, points), era) &&
      ParseMember(MemberText(era, points)) == Ok(points)
  {
    var ep := EraRewardPoints(chain, era);
    var o := RunItems(db, ep.individual, EraValidatorPass(chain, era));
    var (stash, points) := ep.individual[i];
    EraValidatorPassProperties(chain, era);
    RunItemsMembers(db, ep.individual, EraValidatorPass(chain, era), era, i);
    var ps := PointsOf(ep.individual);
    WriteEraStatsKeepsMember(o.db, era, ps, ep.total, EraStats(ps, ep.total).value, stash, MemberText(era, points), era);
    ParseMemberText(era, points);
  }

  /** What follows the loop changes the era's hash by the statistics' fields only. */
  lemma FinishEraPointsField(o: Outcome, era: EraIndex, points: seq<nat>, total: nat, f: string)
    ensures var r, st := FinishEraPoints(o, era, points, total), EraStats(points, total);
      FieldAt(r.db, EraKey(era), f) ==
        if o.fault.None? && st.Ok? && f in st.value then Some(st.value[f]) else FieldAt(o.db, EraKey(era), f)
  {
    if o.fault.None? && EraStats(points, total).Ok? {
      WriteEraStatsFields(o.db, era, points, total, EraStats(points, total).value, f);
    }
  }

  /** The statistics hash has no total reward or total stake field. */
  lemma EraStatsOmitsTotals(points: seq<nat>, total: nat)
    requires EraStats(points, total).Ok?
    ensures "total_reward" !in EraStats(points, total).value && "total_stake" !in EraStats(points, total).value
  {
    var st := EraStats(points, total).value;
    assert st == StatsHash(NatToString(total), NatToString(Min(points)), NatToString(Max(points)),
                           MeanText(points), NatToString(MedianOf(points)));
    StatsHashOmitsTotals(NatToString(total), NatToString(Min(points)), NatToString(Max(points)),
                         MeanText(points), NatToString(MedianOf(points)));
  }

  lemma StatsHashOmitsTotals(total: string, min: string, max: string, avg: string, median: string)
    ensures "total_reward" !in StatsHash(total, min, max, avg, median)
    ensures "total_stake" !in StatsHash(total, min, max, avg, median)
  {
  }

  /** After `eras_reward_points` ran to the end, the era's hash holds the statistics of the
      points: the minimum, maximum and median as integers, the mean as its text. */
  lemma EraPointsStats(db: Db, chain: Chain, era: EraIndex, f: string)
    requires EraPointsStep(db, chain, era).fault.None?
    ensures var ep, db' := EraRewardPoints(chain, era), EraPointsStep(db, chain, era).db;
      var points := PointsOf(ep.individual);
      Sum(points) < U32_BOUND &&
      FieldAt(db', EraKey(era), f) ==
        if f in EraStats(points, ep.total).value then Some(EraStats(points, ep.total).value[f])
        else FieldAt(db, EraKey(era), f)
  {
    var ep := EraRewardPoints(chain, era);
    var o := RunItems(db, ep.individual, EraValidatorPass(chain, era));
    EraValidatorPassProperties(chain, era);
    RunItemsKeepsHash(db, ep.individual, EraValidatorPass(chain, era), EraKey(era));
    FinishEraPointsField(o, era, PointsOf(ep.individual), ep.total, f);
  }

  /** The points step keeps the total reward and total stake fields of the era's hash. */
  lemma EraPointsStepKeepsTotals(db: Db, chain: Chain, era: EraIndex, f: string)
    requires f == "total_reward" || f == "total_stake"
    ensures FieldAt(EraPointsStep(db, chain, era).db, EraKey(era), f) == FieldAt(db, EraKey(era), f)
  {
    var ep := EraRewardPoints(chain, era);
    var o := RunItems(db, ep.individual, EraValidatorPass(chain, era));
    var points := PointsOf(ep.individual);
    EraValidatorPassProperties(chain, era);
    RunItemsKeepsHash(db, ep.individual, EraValidatorPass(chain, era), EraKey(era));
    FinishEraPointsField(o, era, points, ep.total, f);
    if EraStats(points, ep.total).Ok? {
      EraStatsOmitsTotals(points, ep.total);
    }
  }

  /** An era already marked synced is skipped unless forced: nothing is written. */
  lemma SkipWhenSynced(db: Db, chain: Chain, era: EraIndex, force: Option<bool>, now: nat)
    requires force != Some(true) && FieldAt(db, EraKey(era), "synced_at").Some?
    ensures ErasHistoryStep(db, chain, era, force, now) == Outcome(db, None)
  {
  }

  /** Without the flag, an era not yet marked synced is synced as if forced. */
  lemma SyncWhenUnsynced(db: Db, chain: Chain, era: EraIndex, force: Option<bool>, now: nat)
    requires FieldAt(db, EraKey(era), "synced_at").None?
    ensures ErasHistoryStep(db, chain, era, force, now) == ErasHistoryStep(db, chain, era, Some(true), now)
  {
  }

  /** A sync that ran to the end marks the era, so a later unforced call writes nothing. */
  lemma SecondSyncSkipped(db: Db, chain: Chain, era: EraIndex, now: nat, later: nat)
    requires ErasHistoryStep(db, chain, era, Some(true), now).fault.None?
    ensures var db' := ErasHistoryStep(db, chain, era, Some(true), now).db;
      FieldAt(db', EraKey(era), "synced_at") == Some(NatToString(now)) &&
      ErasHistoryStep(db', chain, era, None, later) == Outcome(db', None)
  {
    var o := EraPointsStep(HSetField(HSetField(db, EraKey(era), "total_reward", NatToString(EraReward(chain, era))),
                                     EraKey(era), "total_stake", NatToString(EraTotalStake(chain, era))), chain, era);
    assert ErasHistoryStep(db, chain, era, Some(true), now).db == HSetField(o.db, EraKey(era), "synced_at", NatToString(now));
  }

  /** A forced sync that ran to the end leaves the era's total reward and total stake as the
      node reports them. */
  lemma ForcedSyncTotals(db: Db, chain: Chain, era: EraIndex, now: nat)
    requires ErasHistoryForced(db, chain, era, now).fault.None?
    ensures FieldAt(ErasHistoryForced(db, chain, era, now).db, EraKey(era), "total_reward") == Some(NatToString(EraReward(chain, era)))
    ensures FieldAt(ErasHistoryForced(db, chain, era, now).db, EraKey(era), "total_stake") == Some(NatToString(EraTotalStake(chain, era)))
  {
    var db1 := HSetField(db, EraKey(era), "total_reward", NatToString(EraReward(chain, era)));
    var db2 := HSetField(db1, EraKey(era), "total_stake", NatToString(EraTotalStake(chain, era)));
    EraPointsStepKeepsTotals(db2, chain, era, "total_reward");
    EraPointsStepKeepsTotals(db2, chain, era, "total_stake");
  }

  // ---------------------------------------------------------------------------------
  // The info hash, where the synchronisation keeps its flag, is left alone

  lemma EraValidatorPassKeepsInfo(chain: Chain, era: EraIndex)
    ensures KeepsHash(EraValidatorPass(chain, era), INFO)
  {
    var step := EraValidatorPass(chain, era);
    forall db: Db, s: string, p: nat
      ensures HashAt(step(db, s, p).db, INFO) == HashAt(db, INFO)
    {
      NotInfoKey(Key.ValidatorAtEra(era, s));
      EraValidatorStepHashes(db, chain, era, s, p, INFO);
    }
  }

  /** The statistics' writes leave every hash but the era's as it was. */
  lemma WriteEraStatsHashes(db: Db, era: EraIndex, points: seq<nat>, total: nat, data: Hash, k: string)
    requires k != EraKey(era)
    ensures HashAt(WriteEraStats(db, era, points, total, data), k) == HashAt(db, k)
  {
    var db1 := HSet(db, EraKey(era), data);
    assert HashAt(db1, k) == HashAt(db, k);
    assert WriteEraStats(db, era, points, total, data).hashes == db1.hashes;
  }

  lemma EraPointsKeepsInfo(db: Db, chain: Chain, era: EraIndex)
    ensures HashAt(EraPointsStep(db, chain, era).db, INFO) == HashAt(db, INFO)
  {
    var ep := EraRewardPoints(chain, era);
    var o := RunItems(db, ep.individual, EraValidatorPass(chain, era));
    var points := PointsOf(ep.individual);
    EraValidatorPassKeepsInfo(chain, era);
    RunItemsKeepsHash(db, ep.individual, EraValidatorPass(chain, era), INFO);
    assert EraPointsStep(db, chain, era) == FinishEraPoints(o, era, points, ep.total);
    if o.fault.None? && EraStats(points, ep.total).Ok? {
      NotInfoKey(Key.Era(era));
      WriteEraStatsHashes(o.db, era, points, ep.total, EraStats(points, ep.total).value, INFO);
    }
  }

  /** `eras_history` writes no field of the info hash, so it keeps the `syncing` flag. */
  lemma ErasHistoryKeepsInfo(db: Db, chain: Chain, era: EraIndex, force: Option<bool>, now: nat)
    ensures HashAt(ErasHistoryStep(db, chain, era, force, now).db, INFO) == HashAt(db, INFO)
  {
    if force == Some(true) || "synced_at" !in HashAt(db, EraKey(era)) {
      NotInfoKey(Key.Era(era));
      var db1 := HSetField(db, EraKey(era), "total_reward", NatToString(EraReward(chain, era)));
      var db2 := HSetField(db1, EraKey(era), "total_stake", NatToString(EraTotalStake(chain, era)));
      assert HashAt(db2, INFO) == HashAt(db, INFO);
      var o := EraPointsStep(db2, chain, era);
      EraPointsKeepsInfo(db2, chain, era);
      assert HashAt(HSetField(o.db, EraKey(era), "synced_at", NatToString(now)), INFO) == HashAt(o.db, INFO);
    }
  }
}
