/** `nominators`: for every nominator with a controller, each nominated validator that has
    a record gets its nominators count raised by one and its nominated stake by the
    nominator's stake, and the total-stake board gets the validator's own plus nominated
    stake. The nominator count goes to the info hash. */
module SyncNominators {
  import opened Common
  import opened Text
  import opened Errors
  import opened Keys
  import opened Store
  import opened ChainData
  import opened Sync

  /** A record field read as `u128`, 0 when it is missing or not such a number
      (`unwrap_or_default`). */
  function StakeField(db: Db, key: string, field: string): (n: nat)
    ensures n < U128_BOUND
    ensures FieldAt(db, key, field).None? ==> n == 0
  {
    match FieldAt(db, key, field)
    case None => 0
    case Some(v) => ParseOrZero(v, U128_BOUND)
  }

  /** One nominated validator: skipped when it has no record; otherwise the count raised
      with `HINCRBY` (an error from the store stops the step), the nominated stake read,
      raised and written back, and the total (own plus nominated stake) put on the board
      when it is not zero. Both additions are `u128` additions that panic on overflow. */
  function NominateStep(db: Db, target: string, stake: nat): Outcome {
    if !Exists(db, ValidatorKey(target)) then Outcome(db, None) else CountNominator(db, target, stake)
  }

  /** The count raised with `HINCRBY` (an error from the store stops the step), then the
      nominated stake. */
  function CountNominator(db: Db, target: string, stake: nat): Outcome {
    var key := ValidatorKey(target);
    match HIncrBy(db, key, "nominators", 1)
    case Err(e) => Outcome(db, Some(Raised(CacheToSyncError(e))))
    case Ok(db1) => AddStake(db1, target, StakeField(db1, key, "nominators_stake") + stake)
  }

  /** The raised nominated stake written back, unless it overflows `u128`. */
  function AddStake(db: Db, target: string, nominated: nat): Outcome {
    if nominated >= U128_BOUND then Outcome(db, Some(Panicked(ADD_OVERFLOW)))
    else RankTotal(HSetField(db, ValidatorKey(target), "nominators_stake", NatToString(nominated)), target, nominated)
  }

  /** The validator's total stake, own plus nominated, put on the total-stake board when it
      is not zero, unless the sum overflows `u128`. */
  function RankTotal(db: Db, target: string, nominated: nat): Outcome {
    var total := StakeField(db, ValidatorKey(target), "own_stake") + nominated;
    if total >= U128_BOUND then Outcome(db, Some(Panicked(ADD_OVERFLOW)))
    else if total != 0 then Outcome(ZAdd(db, TOTAL_STAKE_BOARD, total, target), None)
    else Outcome(db, None)
  }

  method NominateTarget(cache: Cache, target: string, stake: nat) returns (fault: Option<Fault<SyncError>>)
    modifies cache
    ensures Outcome(cache.State(), fault) == NominateStep(old(cache.State()), target, stake)
  {
    var present := cache.KeyExists(ValidatorKey(target));
    if !present {
      return None;
    }
    fault := IncrementNominators(cache, target, stake);
  }

  method IncrementNominators(cache: Cache, target: string, stake: nat) returns (fault: Option<Fault<SyncError>>)
    modifies cache
    ensures Outcome(cache.State(), fault) == CountNominator(old(cache.State()), target, stake)
  {
    var key := ValidatorKey(target);
    var r := cache.HIncr(key, "nominators", 1);
    if r.Err? {
      return Some(Raised(CacheToSyncError(r.error)));
    }
    fault := RaiseStake(cache, target, stake);
  }

  method RaiseStake(cache: Cache, target: string, stake: nat) returns (fault: Option<Fault<SyncError>>)
    modifies cache
    ensures Outcome(cache.State(), fault) ==
      AddStake(old(cache.State()), target, StakeField(old(cache.State()), ValidatorKey(target), "nominators_stake") + stake)
  {
    var res := cache.HGet(ValidatorKey(target), "nominators_stake");
    var nominated := match res case Some(v) => ParseOrZero(v, U128_BOUND) case None => 0;
    fault := WriteStake(cache, target, nominated + stake);
  }

  method WriteStake(cache: Cache, target: string, nominated: nat) returns (fault: Option<Fault<SyncError>>)
    modifies cache
    ensures Outcome(cache.State(), fault) == AddStake(old(cache.State()), target, nominated)
  {
    if nominated >= U128_BOUND {
      return Some(Panicked(ADD_OVERFLOW));
    }
    cache.SetField(ValidatorKey(target), "nominators_stake", NatToString(nominated));
    fault := RankValidator(cache, target, nominated);
  }

  method RankValidator(cache: Cache, target: string, nominated: nat) returns (fault: Option<Fault<SyncError>>)
    modifies cache
    ensures Outcome(cache.State(), fault) == RankTotal(old(cache.State()), target, nominated)
  {
    var own := cache.HGet(ValidatorKey(target), "own_stake");
    var total := match own case Some(v) => ParseOrZero(v, U128_BOUND) case None => 0;
    if total + nominated >= U128_BOUND {
      return Some(Panicked(ADD_OVERFLOW));
    }
    total := total + nominated;
    if total != 0 {
      cache.ZAddMember(TOTAL_STAKE_BOARD, total, target);
    }
    fault := None;
  }

  /** The nominated validators still to come, each handled by `nominate` in turn, stopping
      at the first fault. */
  function RunTargets(db: Db, targets: seq<string>, nominate: (Db, string) -> Outcome): Outcome
    decreases |targets|
  {
    if targets == [] then Outcome(db, None)
    else
      var o := nominate(db, targets[0]);
      if o.fault.Some? then o else RunTargets(o.db, targets[1..], nominate)
  }

  /** The step over one target with the nominator's stake. */
  function Nominate(stake: nat): (Db, string) -> Outcome {
    (db: Db, target: string) => NominateStep(db, target, stake)
  }

  method NominateTargets(cache: Cache, targets: seq<string>, stake: nat) returns (fault: Option<Fault<SyncError>>)
    modifies cache
    ensures Outcome(cache.State(), fault) == RunTargets(old(cache.State()), targets, Nominate(stake))
  {
    ghost var run := RunTargets(cache.State(), targets, Nominate(stake));
    var i := 0;
    assert targets[0..] == targets;
    while i < |targets|
      invariant 0 <= i <= |targets|
      invariant RunTargets(cache.State(), targets[i..], Nominate(stake)) == run
    {
      assert targets[i..][1..] == targets[i + 1..];
      var f := NominateTarget(cache, targets[i], stake);
      if f.Some? {
        return f;
      }
      i := i + 1;
    }
    fault := None;
  }

  /** One nominator: nothing when it has no controller, otherwise its targets with the
      controller's active stake. */
  function NominatorPass(db: Db, chain: Chain, stash: string, targets: seq<string>): Outcome {
    if stash !in chain.bonded then Outcome(db, None)
    else RunTargets(db, targets, Nominate(ControllerStake(chain, chain.bonded[stash])))
  }

  /** The loop over the nominators still to come, `count` seen so far; every nominator is
      counted, with a controller or not, and the count goes to the info hash at the end. */
  function RunNominators(db: Db, chain: Chain, items: seq<(string, seq<string>)>, count: nat): Outcome
    decreases |items|
  {
    if items == [] then Outcome(HSet(db, INFO, map["nominators" := NatToString(count)]), None)
    else
      var o := NominatorPass(db, chain, items[0].0, items[0].1);
      if o.fault.Some? then o else RunNominators(o.db, chain, items[1..], count + 1)
  }

  function NominatorsStep(db: Db, chain: Chain): Outcome {
    RunNominators(db, chain, chain.nominators, 0)
  }

  method Nominators(cache: Cache, chain: Chain) returns (fault: Option<Fault<SyncError>>)
    modifies cache
    ensures Outcome(cache.State(), fault) == NominatorsStep(old(cache.State()), chain)
  {
    var items := chain.nominators;
    ghost var run := RunNominators(cache.State(), chain, items, 0);
    var count := 0;
    var i := 0;
    assert items[0..] == items;
    while i < |items|
      invariant 0 <= i <= |items| && count == i
      invariant RunNominators(cache.State(), chain, items[i..], count) == run
    {
      assert items[i..][1..] == items[i + 1..];
      var stash := items[i].0;
      if stash in chain.bonded {
        var f := NominateTargets(cache, items[i].1, ControllerStake(chain, chain.bonded[stash]));
        if f.Some? {
          return f;
        }
      }
      count := count + 1;
      i := i + 1;
    }
    cache.HSetFields(INFO, map["nominators" := NatToString(count)]);
    fault := None;
  }

  // ---------------------------------------------------------------------------------
  // What the counters hold

  /** A validator record whose counters read `n` nominators and `stake` nominated. */
  predicate Tally(db: Db, t: string, n: nat, stake: nat) {
    FieldAt(db, ValidatorKey(t), "nominators") == Some(NatToString(n)) &&
    FieldAt(db, ValidatorKey(t), "nominators_stake") == Some(NatToString(stake)) &&
    stake < U128_BOUND
  }

  /** How often `t` appears among the targets. */
  function Occurrences(targets: seq<string>, t: string): nat
    decreases |targets|
  {
    if targets == [] then 0 else (if targets[0] == t then 1 else 0) + Occurrences(targets[1..], t)
  }

  /** A target is counted exactly when it is among the targets, and at most once per entry. */
  lemma {:induction false} OccurrencesBounds(targets: seq<string>, t: string)
    ensures Occurrences(targets, t) <= |targets|
    ensures Occurrences(targets, t) == 0 <==> t !in targets
    decreases |targets|
  {
    if targets != [] {
      OccurrencesBounds(targets[1..], t);
      assert t in targets <==> targets[0] == t || t in targets[1..];
    }
  }

  /** The step over a target other than `t` leaves `t`'s record as it was. */
  lemma NominateOther(db: Db, target: string, stake: nat, t: string)
    requires target != t
    ensures HashAt(NominateStep(db, target, stake).db, ValidatorKey(t)) == HashAt(db, ValidatorKey(t))
  {
    if ValidatorKey(t) == ValidatorKey(target) {
      ValidatorKeyInjective(t, target);
    }
    var key := ValidatorKey(target);
    if Exists(db, key) && HIncrBy(db, key, "nominators", 1).Ok? {
      var db1 := HIncrBy(db, key, "nominators", 1).value;
      assert HashAt(db1, ValidatorKey(t)) == HashAt(db, ValidatorKey(t));
      AddStakeKeeps(db1, target, StakeField(db1, key, "nominators_stake") + stake, t);
    }
  }

  /** Writing the stake of `target` leaves every other record as it was. */
  lemma AddStakeKeeps(db: Db, target: string, nominated: nat, t: string)
    requires ValidatorKey(t) != ValidatorKey(target)
    ensures HashAt(AddStake(db, target, nominated).db, ValidatorKey(t)) == HashAt(db, ValidatorKey(t))
  {
    if nominated < U128_BOUND {
      var db2 := HSetField(db, ValidatorKey(target), "nominators_stake", NatToString(nominated));
      RankTotalHashes(db2, target, nominated);
    }
  }

  /** Ranking touches no hash. */
  lemma RankTotalHashes(db: Db, target: string, nominated: nat)
    ensures RankTotal(db, target, nominated).db.hashes == db.hashes
  {
  }

  /** Raising the count of a record that reads `n` gives `n + 1`, unless the count is past
      the 64-bit range, where the store refuses; the nominated stake is untouched. */
  lemma IncrementTally(db: Db, t: string, n: nat)
    requires FieldAt(db, ValidatorKey(t), "nominators") == Some(NatToString(n))
    ensures HIncrBy(db, ValidatorKey(t), "nominators", 1).Ok? <==> n < I64_MAX
    ensures HIncrBy(db, ValidatorKey(t), "nominators", 1).Ok? ==>
      var db1 := HIncrBy(db, ValidatorKey(t), "nominators", 1).value;
      FieldAt(db1, ValidatorKey(t), "nominators") == Some(NatToString(n + 1)) &&
      FieldAt(db1, ValidatorKey(t), "nominators_stake") == FieldAt(db, ValidatorKey(t), "nominators_stake")
  {
    if n > I64_MAX {
      ParseRedisIntOverflow(n);
    } else {
      ParseIntToString(n);
      assert IntToString(n) == NatToString(n);
      assert IntToString(n + 1) == NatToString(n + 1);
    }
  }

  /** The stake written back is the one the record then reads. */
  lemma AddStakeTally(db: Db, t: string, n: nat, nominated: nat)
    requires FieldAt(db, ValidatorKey(t), "nominators") == Some(NatToString(n))
    requires AddStake(db, t, nominated).fault.None?
    ensures Tally(AddStake(db, t, nominated).db, t, n, nominated)
  {
    var db2 := HSetField(db, ValidatorKey(t), "nominators_stake", NatToString(nominated));
    RankTotalHashes(db2, t, nominated);
  }

  /** The step over `t` itself, when it goes on, adds one nominator and `stake` to its
      counters. */
  lemma NominateSelf(db: Db, t: string, stake: nat, n: nat, nominated: nat)
    requires Tally(db, t, n, nominated)
    requires NominateStep(db, t, stake).fault.None?
    ensures Tally(NominateStep(db, t, stake).db, t, n + 1, nominated + stake)
  {
    var key := ValidatorKey(t);
    IncrementTally(db, t, n);
    var db1 := HIncrBy(db, key, "nominators", 1).value;
    ParseNatToString(nominated, U128_BOUND);
    assert StakeField(db1, key, "nominators_stake") == nominated;
    AddStakeTally(db1, t, n + 1, nominated + stake);
  }

  /** One step adds one nominator and `stake` to the counters of the target it handles
      and leaves every other record's counters as they were. */
  lemma NominateTally(db: Db, target: string, stake: nat, t: string, n: nat, nominated: nat)
    requires Tally(db, t, n, nominated)
    requires NominateStep(db, target, stake).fault.None?
    ensures Tally(NominateStep(db, target, stake).db, t, n + (if target == t then 1 else 0), nominated + (if target == t then stake else 0))
  {
    if target == t {
      NominateSelf(db, t, stake, n, nominated);
    } else {
      NominateOther(db, target, stake, t);
      assert FieldAt(NominateStep(db, target, stake).db, ValidatorKey(t), "nominators") == FieldAt(db, ValidatorKey(t), "nominators");
      assert FieldAt(NominateStep(db, target, stake).db, ValidatorKey(t), "nominators_stake") == FieldAt(db, ValidatorKey(t), "nominators_stake");
    }
  }

  /** The stake `t` receives from one nominator: `stake` for each time it is nominated. */
  function StakeTo(targets: seq<string>, t: string, stake: nat): nat
    decreases |targets|
  {
    if targets == [] then 0 else (if targets[0] == t then stake else 0) + StakeTo(targets[1..], t, stake)
  }

  lemma {:induction false} StakeToOccurrences(targets: seq<string>, t: string, stake: nat)
    ensures StakeTo(targets, t, stake) == Occurrences(targets, t) * stake
    decreases |targets|
  {
    if targets != [] {
      StakeToOccurrences(targets[1..], t, stake);
      var k := Occurrences(targets[1..], t);
      if targets[0] == t {
        assert (1 + k) * stake == stake + k * stake;
      }
    }
  }

  /** Over one nominator's targets, `t`'s counters grow by the number of times it is
      nominated, and by the stake for each of those times. */
  lemma {:induction false} RunTargetsTally(db: Db, targets: seq<string>, stake: nat, t: string, n: nat, nominated: nat)
    requires Tally(db, t, n, nominated)
    requires RunTargets(db, targets, Nominate(stake)).fault.None?
    ensures Tally(RunTargets(db, targets, Nominate(stake)).db, t, n + Occurrences(targets, t), nominated + StakeTo(targets, t, stake))
    decreases |targets|
  {
    if targets != [] {
      var o := NominateStep(db, targets[0], stake);
      assert o.fault.None? && RunTargets(db, targets, Nominate(stake)) == RunTargets(o.db, targets[1..], Nominate(stake));
      NominateTally(db, targets[0], stake, t, n, nominated);
      if targets[0] == t {
        RunTargetsTally(o.db, targets[1..], stake, t, n + 1, nominated + stake);
      } else {
        RunTargetsTally(o.db, targets[1..], stake, t, n, nominated);
      }
    }
  }

  /** How often the nominators with a controller nominate `t`. */
  function NominationsOf(chain: Chain, items: seq<(string, seq<string>)>, t: string): nat
    decreases |items|
  {
    if items == [] then 0
    else (if items[0].0 in chain.bonded then Occurrences(items[0].1, t) else 0) + NominationsOf(chain, items[1..], t)
  }

  /** The stake those nominations carry: each nominator's controller stake, once per
      nomination. */
  function NominatedStake(chain: Chain, items: seq<(string, seq<string>)>, t: string): nat
    decreases |items|
  {
    if items == [] then 0
    else
      (if items[0].0 in chain.bonded then StakeTo(items[0].1, t, ControllerStake(chain, chain.bonded[items[0].0])) else 0) +
      NominatedStake(chain, items[1..], t)
  }

  /** One nominator adds its nominations of `t` to `t`'s counters. */
  lemma NominatorPassTally(db: Db, chain: Chain, stash: string, targets: seq<string>, t: string, n: nat, nominated: nat)
    requires Tally(db, t, n, nominated)
    requires NominatorPass(db, chain, stash, targets).fault.None?
    ensures stash in chain.bonded ==>
      Tally(NominatorPass(db, chain, stash, targets).db, t, n + Occurrences(targets, t),
        nominated + StakeTo(targets, t, ControllerStake(chain, chain.bonded[stash])))
    ensures stash !in chain.bonded ==> NominatorPass(db, chain, stash, targets).db == db
  {
    if stash in chain.bonded {
      var stake := ControllerStake(chain, chain.bonded[stash]);
      RunTargetsTally(db, targets, stake, t, n, nominated);
    }
  }

  /** Over all nominators, the counters of `t` grow by its nominations and their stake;
      the info hash is written only at the end, with a key no record has. */
  lemma {:induction false} RunNominatorsTally(db: Db, chain: Chain, items: seq<(string, seq<string>)>, count: nat,
                                              t: string, n: nat, nominated: nat)
    requires Tally(db, t, n, nominated)
    requires RunNominators(db, chain, items, count).fault.None?
    ensures Tally(RunNominators(db, chain, items, count).db, t, n + NominationsOf(chain, items, t),
      nominated + NominatedStake(chain, items, t))
    decreases |items|
  {
    if items == [] {
      NotInfoKey(Key.Validator(t));
    } else {
      var (stash, targets) := items[0];
      var o := NominatorPass(db, chain, stash, targets);
      NominatorPassTally(db, chain, stash, targets, t, n, nominated);
      if stash in chain.bonded {
        var stake := ControllerStake(chain, chain.bonded[stash]);
        RunNominatorsTally(o.db, chain, items[1..], count + 1, t, n + Occurrences(targets, t), nominated + StakeTo(targets, t, stake));
      } else {
        RunNominatorsTally(o.db, chain, items[1..], count + 1, t, n, nominated);
      }
    }
  }

  /** The info hash gets the number of all nominators, with a controller or not. */
  lemma {:induction false} RunNominatorsCount(db: Db, chain: Chain, items: seq<(string, seq<string>)>, count: nat)
    requires RunNominators(db, chain, items, count).fault.None?
    ensures FieldAt(RunNominators(db, chain, items, count).db, INFO, "nominators") == Some(NatToString(count + |items|))
    decreases |items|
  {
    if items == [] {
      var info := map["nominators" := NatToString(count)];
      assert FieldAt(HSet(db, INFO, info), INFO, "nominators") == Some(info["nominators"]);
    } else {
      var o := NominatorPass(db, chain, items[0].0, items[0].1);
      RunNominatorsCount(o.db, chain, items[1..], count + 1);
    }
  }

  /** `nominators` as a whole, on a record `validators` has just reset: the record ends with
      as many nominators as nominations of it and their total stake, and the info hash
      with the number of nominators. */
  lemma NominatorsTally(db: Db, chain: Chain, t: string)
    requires FieldAt(db, ValidatorKey(t), "nominators") == Some("0")
    requires FieldAt(db, ValidatorKey(t), "nominators_stake") == Some("0")
    requires NominatorsStep(db, chain).fault.None?
    ensures Tally(NominatorsStep(db, chain).db, t, NominationsOf(chain, chain.nominators, t), NominatedStake(chain, chain.nominators, t))
    ensures FieldAt(NominatorsStep(db, chain).db, INFO, "nominators") == Some(NatToString(|chain.nominators|))
  {
    assert NatToString(0) == "0";
    RunNominatorsTally(db, chain, chain.nominators, 0, t, 0, 0);
    RunNominatorsCount(db, chain, chain.nominators, 0);
  }

  // ---------------------------------------------------------------------------------
  // The total-stake board and the overflows

  /** Ranking puts the validator on the total-stake board with its own plus nominated
      stake when that is not zero, and leaves the board as it was otherwise. */
  lemma RankTotalBoard(db: Db, target: string, nominated: nat)
    requires RankTotal(db, target, nominated).fault.None?
    ensures var total := StakeField(db, ValidatorKey(target), "own_stake") + nominated;
      var board := ZSetAt(RankTotal(db, target, nominated).db, TOTAL_STAKE_BOARD);
      (total != 0 ==> target in board && board[target] == total) &&
      (total == 0 ==> board == ZSetAt(db, TOTAL_STAKE_BOARD))
  {
  }

  /** A nomination of a validator whose record reads `n` nominators and `nominated` stake,
      when it goes on, ranks the validator by its own stake plus the raised nominated stake. */
  lemma NominateRanks(db: Db, t: string, stake: nat, n: nat, nominated: nat)
    requires Tally(db, t, n, nominated)
    requires NominateStep(db, t, stake).fault.None?
    ensures var total := StakeField(db, ValidatorKey(t), "own_stake") + nominated + stake;
      var board := ZSetAt(NominateStep(db, t, stake).db, TOTAL_STAKE_BOARD);
      (total != 0 ==> t in board && board[t] == total) &&
      (total == 0 ==> board == ZSetAt(db, TOTAL_STAKE_BOARD))
  {
    var key := ValidatorKey(t);
    IncrementTally(db, t, n);
    var db1 := HIncrBy(db, key, "nominators", 1).value;
    ParseNatToString(nominated, U128_BOUND);
    assert StakeField(db1, key, "nominators_stake") == nominated;
    assert StakeField(db1, key, "own_stake") == StakeField(db, key, "own_stake");
    var db2 := HSetField(db1, key, "nominators_stake", NatToString(nominated + stake));
    assert StakeField(db2, key, "own_stake") == StakeField(db, key, "own_stake");
    RankTotalBoard(db2, t, nominated + stake);
  }

  /** A nomination that takes the nominated stake past the `u128` range panics. */
  lemma NominateStakeOverflow(db: Db, t: string, stake: nat, n: nat, nominated: nat)
    requires Tally(db, t, n, nominated) && n < I64_MAX
    requires nominated + stake >= U128_BOUND
    ensures NominateStep(db, t, stake).fault == Some(Panicked(ADD_OVERFLOW))
  {
    IncrementTally(db, t, n);
    var db1 := HIncrBy(db, ValidatorKey(t), "nominators", 1).value;
    ParseNatToString(nominated, U128_BOUND);
    assert StakeField(db1, ValidatorKey(t), "nominators_stake") == nominated;
  }

  /** A record whose count is already the largest 64-bit integer makes `HINCRBY` fail, and
      the step stops with that store error. */
  lemma NominateCountOverflow(db: Db, t: string, stake: nat, nominated: nat)
    requires Tally(db, t, I64_MAX, nominated)
    ensures NominateStep(db, t, stake).fault.Some? && NominateStep(db, t, stake).fault.value.Raised?
    ensures NominateStep(db, t, stake).db == db
  {
    IncrementTally(db, t, I64_MAX);
  }

  // ---------------------------------------------------------------------------------
  // The flag of the info hash is not touched by the nominators

  /** A nominated validator's step writes its record and the total-stake board only. */
  lemma NominateStepHashes(db: Db, target: string, stake: nat, k: string)
    requires k != ValidatorKey(target)
    ensures HashAt(NominateStep(db, target, stake).db, k) == HashAt(db, k)
  {
    var key := ValidatorKey(target);
    if Exists(db, key) && HIncrBy(db, key, "nominators", 1).Ok? {
      var db1 := HIncrBy(db, key, "nominators", 1).value;
      assert HashAt(db1, k) == HashAt(db, k);
      var nominated := StakeField(db1, key, "nominators_stake") + stake;
      if nominated < U128_BOUND {
        RankTotalHashes(HSetField(db1, key, "nominators_stake", NatToString(nominated)), target, nominated);
      }
    }
  }

  lemma {:induction false} RunTargetsKeepsInfo(db: Db, targets: seq<string>, stake: nat)
    ensures HashAt(RunTargets(db, targets, Nominate(stake)).db, INFO) == HashAt(db, INFO)
    decreases |targets|
  {
    if targets != [] {
      var o := NominateStep(db, targets[0], stake);
      NotInfoKey(Key.Validator(targets[0]));
      NominateStepHashes(db, targets[0], stake, INFO);
      if o.fault.None? {
        RunTargetsKeepsInfo(o.db, targets[1..], stake);
      }
    }
  }

  lemma {:induction false} RunNominatorsKeepsFlag(db: Db, chain: Chain, items: seq<(string, seq<string>)>, count: nat)
    ensures SameFlag(db, RunNominators(db, chain, items, count).db)
    decreases |items|
  {
    if items == [] {
      CountKeepsFlag(db, "nominators", count);
    } else {
      var o := NominatorPass(db, chain, items[0].0, items[0].1);
      if items[0].0 in chain.bonded {
        RunTargetsKeepsInfo(db, items[0].1, ControllerStake(chain, chain.bonded[items[0].0]));
      }
      if o.fault.None? {
        RunNominatorsKeepsFlag(o.db, chain, items[1..], count + 1);
      }
    }
  }
}
