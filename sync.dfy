/** The synchroniser's steps that refresh the cache from the node: the status flag,
    the network details, the active era, every validator's record and boards, the active
    set, and the nominators' counts and stakes. Each step is a method over the `Cache`
    connection, proved to leave the store as a function over `Db` of what the node
    answered says, and to end the way that function says. */
module Sync {
  import opened Common
  import opened Text
  import opened Errors
  import opened Keys
  import opened Store
  import opened Stats
  import opened ChainData

  /** A step either runs to the end or stops with a fault: an error returned with `?`
      or a panic. */
  datatype Outcome = Outcome(db: Db, fault: Option<Fault<SyncError>>)

  const ADD_OVERFLOW := "attempt to add with overflow"
  const SUB_OVERFLOW := "attempt to subtract with overflow"
  const NO_ACTIVE_ERA := "Active era not available"
  /** The error a step that needs the active era stops with when the node has none. */
  const NoActiveEra: Fault<SyncError> := Raised(SyncError.Other(NO_ACTIVE_ERA))

  /** The keys the steps write besides the per-account ones. */
  const INFO := Render(Key.Info)
  const OWN_STAKE_BOARD := Render(Key.BoardAtEra(0, BOARD_OWN_STAKE_VALIDATORS))
  const TOTAL_STAKE_BOARD := Render(Key.BoardAtEra(0, BOARD_TOTAL_STAKE_VALIDATORS))
  const JUDGEMENTS_BOARD := Render(Key.BoardAtEra(0, BOARD_JUDGEMENTS_VALIDATORS))
  const SUB_ACCOUNTS_BOARD := Render(Key.BoardAtEra(0, BOARD_SUB_ACCOUNTS_VALIDATORS))

  function AllBoard(era: EraIndex): string {
    Render(Key.BoardAtEra(era, BOARD_ALL_VALIDATORS))
  }

  function ActiveBoard(era: EraIndex): string {
    Render(Key.BoardAtEra(era, BOARD_ACTIVE_VALIDATORS))
  }

  function ValidatorKey(stash: string): string {
    Render(Key.Validator(stash))
  }

  function ActiveErasKey(stash: string): string {
    Render(Key.ActiveErasByValidator(stash))
  }

  // ---------------------------------------------------------------------------------
  // Key texts: which writes can reach which keys

  /** Two stashes share a validator key only if they are the same stash. */
  lemma ValidatorKeyInjective(s1: string, s2: string)
    requires ValidatorKey(s1) == ValidatorKey(s2)
    ensures s1 == s2
  {
    assert ValidatorKey(s1) == s1 + ":val" && ValidatorKey(s2) == s2 + ":val";
    assert |s1| == |s2|;
    assert s1 == ValidatorKey(s1)[..|s1|];
  }

  /** Every key built from an era or an account holds a ':', so none of them is the info key. */
  lemma NotInfoKey(k: Key)
    requires !k.Network? && !k.Info? && !k.Stats?
    ensures Render(k) != INFO
  {
    var t := Render(k);
    assert ':' !in INFO;
    match k
    case ActiveEra => assert t[3] == ':';
    case Era(e) => assert t[|NatToString(e)|] == ':';
    case ValidatorAtEra(e, s) => assert t[|NatToString(e)|] == ':';
    case ValidatorAtEraScan(s) => assert t[1] == ':';
    case BoardAtEra(e, n) => assert t[|NatToString(e)|] == ':';
    case Validator(s) => assert t[|s|] == ':';
    case ActiveErasByValidator(s) => assert t[|s|] == ':';
  }

  /** The boards named by distinct names, or kept for distinct eras, are distinct keys. */
  lemma BoardsDistinct(e1: EraIndex, n1: string, e2: EraIndex, n2: string)
    requires e1 != e2 || n1 != n2
    ensures Render(Key.BoardAtEra(e1, n1)) != Render(Key.BoardAtEra(e2, n2))
  {
    if Render(Key.BoardAtEra(e1, n1)) == Render(Key.BoardAtEra(e2, n2)) {
      RenderInjective(Key.BoardAtEra(e1, n1), Key.BoardAtEra(e2, n2));
    }
  }

  /** No board is a validator's key: a board's text ends with "board", a validator's with
      "val". */
  lemma BoardIsNoValidatorKey(e: EraIndex, n: string, s: string)
    ensures Render(Key.BoardAtEra(e, n)) != ValidatorKey(s)
  {
    var b, v := Render(Key.BoardAtEra(e, n)), ValidatorKey(s);
    assert b[|b| - 1] == 'd';
    assert v[|v| - 1] == 'l';
  }

  /** The `syncing` field of the info hash is the same in both stores. */
  predicate SameFlag(a: Db, b: Db) {
    FieldAt(a, INFO, "syncing") == FieldAt(b, INFO, "syncing")
  }

  // ---------------------------------------------------------------------------------
  // Status

  datatype Status = Started | Finished

  /** What `status` writes to the info hash: the flag and the time the sync started or
      finished. */
  function StatusFields(status: Status, now: nat): (data: Hash)
    ensures data.Keys == {"syncing", if status == Started then "syncing_started_at" else "syncing_finished_at"}
    ensures data["syncing"] == BoolToString(status == Started)
  {
    match status
    case Started => map["syncing" := "true", "syncing_started_at" := NatToString(now)]
    case Finished => map["syncing" := "false", "syncing_finished_at" := NatToString(now)]
  }

  /** `status`: HSET of the info hash; its other fields stay. */
  method SetStatus(cache: Cache, status: Status, now: nat)
    modifies cache
    ensures cache.State() == HSet(old(cache.State()), INFO, StatusFields(status, now))
  {
    cache.HSetFields(INFO, StatusFields(status, now));
  }

  /** The value `is_syncing` reads: the flag parsed as a `bool`, false when missing or not a
      `bool`. */
  function Syncing(db: Db): (b: bool)
    ensures b <==> FieldAt(db, INFO, "syncing") == Some("true")
  {
    match FieldAt(db, INFO, "syncing")
    case None => false
    case Some(v) =>
      match ParseBool(v)
      case Some(flag) => flag
      case None => false
  }

  method IsSyncing(cache: Cache) returns (b: bool)
    ensures b == Syncing(cache.State())
  {
    var v := cache.HGet(INFO, "syncing");
    match v {
      case None => b := false;
      case Some(text) =>
        var flag := ParseBool(text);
        b := flag == Some(true);
    }
  }

  /** Writing the status sets the flag `is_syncing` reads: true after `Started`, false after
      `Finished`, whatever was there before. */
  lemma StatusSetsFlag(db: Db, status: Status, now: nat)
    ensures Syncing(HSet(db, INFO, StatusFields(status, now))) <==> status == Started
  {
    var db' := HSet(db, INFO, StatusFields(status, now));
    assert FieldAt(db', INFO, "syncing") == Some(BoolToString(status == Started));
  }

  // ---------------------------------------------------------------------------------
  // Network and active era

  /** The hash `network` writes: the chain's name and token properties, and the node URL. */
  function NetworkFields(chain: Chain): (data: Hash)
    ensures data.Keys == {"name", "token_symbol", "token_decimals", "ss58_format", "substrate_node_url"}
    ensures data["name"] == chain.chainName && data["substrate_node_url"] == chain.nodeUrl
    ensures data["token_decimals"] == NatToString(chain.properties.tokenDecimals)
    ensures data["ss58_format"] == NatToString(chain.properties.ss58Format)
    ensures data["token_symbol"] == chain.properties.tokenSymbol
  {
    map["name" := chain.chainName,
        "token_symbol" := chain.properties.tokenSymbol,
        "token_decimals" := NatToString(chain.properties.tokenDecimals),
        "ss58_format" := NatToString(chain.properties.ss58Format),
        "substrate_node_url" := chain.nodeUrl]
  }

  method Network(cache: Cache, chain: Chain)
    modifies cache
    ensures cache.State() == HSet(old(cache.State()), Render(Key.Network), NetworkFields(chain))
  {
    cache.HSetFields(Render(Key.Network), NetworkFields(chain));
  }

  /** `active_era`: the active era's index, cached under "era:active"; an error when the node
      has no active era, with nothing written. */
  method ActiveEra(cache: Cache, chain: Chain) returns (r: Result<EraIndex, Fault<SyncError>>)
    modifies cache
    ensures chain.activeEra.None? ==> r == Err(NoActiveEra) && cache.State() == old(cache.State())
    ensures chain.activeEra.Some? ==> (r == Ok(chain.activeEra.value) &&
      cache.State() == SetString(old(cache.State()), Render(Key.ActiveEra), NatToString(chain.activeEra.value)))
  {
    match chain.activeEra {
      case None => r := Err(NoActiveEra);
      case Some(era) =>
        cache.Set(Render(Key.ActiveEra), NatToString(era));
        r := Ok(era);
    }
  }

  // ---------------------------------------------------------------------------------
  // Validators

  /** The points of the members read from a validator's active-eras set, in order; the
      first member that does not parse makes the conversion panic. */
  function MembersPoints(members: seq<string>): (r: Result<seq<nat>, string>)
  {
    if members == [] then Ok([])
    else
      match ParseMember(members[0])
      case Err(p) => Err(p)
      case Ok(p) =>
        match MembersPoints(members[1..])
        case Err(q) => Err(q)
        case Ok(ps) => Ok([p] + ps)
  }

  /** The conversion succeeds exactly when every member parses, and then holds each member's
      points in the members' order. */
  lemma {:induction false} MembersPointsParsed(members: seq<string>)
    ensures MembersPoints(members).Ok? <==> forall i :: 0 <= i < |members| ==> ParseMember(members[i]).Ok?
    ensures MembersPoints(members).Ok? ==>
      (|MembersPoints(members).value| == |members| &&
       forall i :: 0 <= i < |members| ==> MembersPoints(members).value[i] == ParseMember(members[i]).value)
    decreases |members|
  {
    if members != [] {
      MembersPointsParsed(members[1..]);
      assert forall i :: 1 <= i < |members| ==> members[i] == members[1..][i - 1];
    }
  }

  /** The members of the stash's active-eras set with a score (an era) in [lo, hi). */
  function ErasInRange(db: Db, stash: string, lo: nat, hi: nat): (ms: seq<string>)
  {
    RangeByScore(ZSetAt(db, ActiveErasKey(stash)), lo, Some(hi))
  }

  /** `calculate_avg_reward_points`: the mean of the points of the eras in [lo, hi), as
      `f64` text; a malformed member or a `u32` overflow of the sum panics. */
  function AvgRewardPoints(db: Db, stash: string, lo: nat, hi: nat): Result<string, string>
  {
    match MembersPoints(ErasInRange(db, stash, lo, hi))
    case Err(p) => Err(p)
    case Ok(points) => if Sum(points) < U32_BOUND then Ok(MeanText(points)) else Err(ADD_OVERFLOW)
  }

  method CalculateAvgRewardPoints(cache: Cache, stash: string, lo: nat, hi: nat) returns (r: Result<string, string>)
    ensures r == AvgRewardPoints(cache.State(), stash, lo, hi)
  {
    var members := cache.ZRangeByScore(ActiveErasKey(stash), lo, Some(hi));
    var points := MembersPoints(members);
    match points {
      case Err(p) => r := Err(p);
      case Ok(ps) => r := if Sum(ps) < U32_BOUND then Ok(MeanText(ps)) else Err(ADD_OVERFLOW);
    }
  }

  /** The hash `validators` writes for a bonded stash: inactive until the active set says
      otherwise, its preferences, controller, own stake, reward destination, inclusion rate
      and average points, its identity, and the nominators counters reset to zero. */
  function ValidatorData(chain: Chain, stash: string, prefs: Prefs, controller: string, stake: nat,
                         inclusion: string, avg: string): (data: Hash)
    ensures "active" in data && data["active"] == "false"
    ensures "nominators" in data && data["nominators"] == "0"
    ensures "nominators_stake" in data && data["nominators_stake"] == "0"
    ensures "own_stake" in data && data["own_stake"] == NatToString(stake)
  {
    var prefsAndStake := map[
        "commission" := NatToString(prefs.commission),
        "blocked" := BoolToString(prefs.blocked),
        "controller" := controller,
        "reward_staked" := BoolToString(RewardStaked(chain, stash)),
        "inclusion_rate" := inclusion,
        "avg_reward_points" := avg,
        "own_stake" := NatToString(stake),
        "active" := "false"];
    var identity := GetIdentity(chain, stash, None);
    assert "active" !in identity && "own_stake" !in identity;
    (prefsAndStake + identity)["nominators" := "0"]["nominators_stake" := "0"]
  }

  /** The average points go to "avg_reward_points"; no field is named "mean_reward_points". */
  lemma ValidatorDataAverage(chain: Chain, stash: string, prefs: Prefs, controller: string, stake: nat,
                             inclusion: string, avg: string)
    ensures var data := ValidatorData(chain, stash, prefs, controller, stake, inclusion, avg);
      "avg_reward_points" in data && data["avg_reward_points"] == avg && "mean_reward_points" !in data
  {
    var identity := GetIdentity(chain, stash, None);
    assert "avg_reward_points" !in identity && "mean_reward_points" !in identity;
  }

  /** The counters a validator's record holds once `validators` has written it. */
  predicate CountersReset(db: Db, stash: string) {
    FieldAt(db, ValidatorKey(stash), "active") == Some("false") &&
    FieldAt(db, ValidatorKey(stash), "nominators") == Some("0") &&
    FieldAt(db, ValidatorKey(stash), "nominators_stake") == Some("0")
  }

  /** One pass of the loop of `validators`: nothing for a stash without a controller;
      otherwise the own-stake board entry (when the stake is nonzero), then the era range
      `active - depth` (a `u32` subtraction that panics when the depth exceeds the era), the
      inclusion rate of the eras in that range (`rate` gives the `f32` text of the count over
      the depth), the average points, and finally the record and the three boards. The flag
      says whether the stash was counted. */
  function ValidatorStep(db: Db, chain: Chain, era: EraIndex, stash: string, prefs: Prefs,
                         rate: (nat, nat) -> string): (r: (Outcome, bool))
  {
    if stash !in chain.bonded then (Outcome(db, None), false)
    else
      var db1 := OwnStakeEntry(db, chain, stash);
      if chain.historyDepth > era then (Outcome(db1, Some(Panicked(SUB_OVERFLOW))), true)
      else
        match AvgRewardPoints(db1, stash, era - chain.historyDepth, era)
        case Err(p) => (Outcome(db1, Some(Panicked(p))), true)
        case Ok(avg) => (Outcome(WriteRecord(db1, era, stash, ValidatorRecord(db1, chain, era, stash, prefs, rate, avg)), None), true)
  }

  /** The own-stake board entry a pass adds for a bonded stash whose stake is nonzero. */
  function OwnStakeEntry(db: Db, chain: Chain, stash: string): Db
    requires stash in chain.bonded
  {
    var stake := ControllerStake(chain, chain.bonded[stash]);
    if stake != 0 then ZAdd(db, OWN_STAKE_BOARD, stake, stash) else db
  }

  /** The record of a bonded stash: its controller and stake, and the inclusion rate of the
      eras in [era - depth, era) of its active-eras set. */
  function ValidatorRecord(db: Db, chain: Chain, era: EraIndex, stash: string, prefs: Prefs,
                           rate: (nat, nat) -> string, avg: string): (data: Hash)
    requires stash in chain.bonded && chain.historyDepth <= era
    ensures CountersHeld(data)
    ensures "avg_reward_points" in data && data["avg_reward_points"] == avg && "mean_reward_points" !in data
  {
    var controller := chain.bonded[stash];
    var eras := ErasInRange(db, stash, era - chain.historyDepth, era);
    ValidatorDataAverage(chain, stash, prefs, controller, ControllerStake(chain, controller),
      rate(|eras|, chain.historyDepth), avg);
    ValidatorData(chain, stash, prefs, controller, ControllerStake(chain, controller),
      rate(|eras|, chain.historyDepth), avg)
  }

  /** The record written to the validator's hash, then the stash added to the era's board of
      all validators (score 0) and to the judgements and sub-accounts boards, scored by those
      fields of the record read as `u32` (0 when they are not numbers). */
  function WriteRecord(db: Db, era: EraIndex, stash: string, data: Hash): Db {
    var db1 := HSet(db, ValidatorKey(stash), data);
    var db2 := ZAdd(db1, AllBoard(era), 0, stash);
    var judgements := if "judgements" in data then data["judgements"] else "0";
    var subs := if "sub_accounts" in data then data["sub_accounts"] else "0";
    var db3 := ZAdd(db2, JUDGEMENTS_BOARD, ParseOrZero(judgements, U32_BOUND), stash);
    ZAdd(db3, SUB_ACCOUNTS_BOARD, ParseOrZero(subs, U32_BOUND), stash)
  }

  method WriteValidatorRecord(cache: Cache, era: EraIndex, stash: string, data: Hash)
    modifies cache
    ensures cache.State() == WriteRecord(old(cache.State()), era, stash, data)
  {
    cache.HSetFields(ValidatorKey(stash), data);
    cache.ZAddMember(AllBoard(era), 0, stash);
    var judgements := if "judgements" in data then data["judgements"] else "0";
    var subs := if "sub_accounts" in data then data["sub_accounts"] else "0";
    cache.ZAddMember(JUDGEMENTS_BOARD, ParseOrZero(judgements, U32_BOUND), stash);
    cache.ZAddMember(SUB_ACCOUNTS_BOARD, ParseOrZero(subs, U32_BOUND), stash);
  }

  method SyncValidator(cache: Cache, chain: Chain, era: EraIndex, stash: string, prefs: Prefs,
                       rate: (nat, nat) -> string) returns (fault: Option<Fault<SyncError>>, counted: bool)
    modifies cache
    ensures (Outcome(cache.State(), fault), counted) == ValidatorStep(old(cache.State()), chain, era, stash, prefs, rate)
  {
    if stash !in chain.bonded {
      return None, false;
    }
    var controller := chain.bonded[stash];
    var stake := ControllerStake(chain, controller);
    if stake != 0 {
      cache.ZAddMember(OWN_STAKE_BOARD, stake, stash);
    }
    counted := true;
    if chain.historyDepth > era {
      return Some(Panicked(SUB_OVERFLOW)), true;
    }
    var lo := era - chain.historyDepth;
    var eras := cache.ZRangeByScore(ActiveErasKey(stash), lo, Some(era));
    var inclusion := rate(|eras|, chain.historyDepth);
    var avg := CalculateAvgRewardPoints(cache, stash, lo, era);
    match avg {
      case Err(p) =>
        fault := Some(Panicked(p));
      case Ok(text) =>
        WriteValidatorRecord(cache, era, stash, ValidatorData(chain, stash, prefs, controller, stake, inclusion, text));
        fault := None;
    }
  }

  /** The loop of `validators` over the entries still to come, `count` stashes counted so
      far, each entry handled by `pass`; at the end the count goes to the info hash. */
  function RunPasses(db: Db, items: seq<(string, Prefs)>, pass: (Db, string, Prefs) -> (Outcome, bool),
                     count: nat): Outcome
    decreases |items|
  {
    if items == [] then Outcome(HSet(db, INFO, map["validators" := NatToString(count)]), None)
    else
      var (o, counted) := pass(db, items[0].0, items[0].1);
      if o.fault.Some? then o
      else RunPasses(o.db, items[1..], pass, if counted then count + 1 else count)
  }

  /** The pass `validators` makes over one entry in the given era. */
  function ValidatorPass(chain: Chain, era: EraIndex, rate: (nat, nat) -> string): (Db, string, Prefs) -> (Outcome, bool) {
    (db: Db, stash: string, prefs: Prefs) => ValidatorStep(db, chain, era, stash, prefs, rate)
  }

  /** `validators`: every validator entry in turn, after reading the active era (an error,
      with nothing written, when there is none). */
  function ValidatorsStep(db: Db, chain: Chain, rate: (nat, nat) -> string): Outcome {
    match chain.activeEra
    case None => Outcome(db, Some(NoActiveEra))
    case Some(era) => RunPasses(db, chain.validators, ValidatorPass(chain, era, rate), 0)
  }

  method Validators(cache: Cache, chain: Chain, rate: (nat, nat) -> string) returns (fault: Option<Fault<SyncError>>)
    modifies cache
    ensures Outcome(cache.State(), fault) == ValidatorsStep(old(cache.State()), chain, rate)
  {
    if chain.activeEra.None? {
      return Some(NoActiveEra);
    }
    var era := chain.activeEra.value;
    var items := chain.validators;
    ghost var pass := ValidatorPass(chain, era, rate);
    ghost var run := RunPasses(cache.State(), items, pass, 0);
    var count := 0;
    var i := 0;
    assert items[0..] == items;
    while i < |items|
      invariant 0 <= i <= |items|
      invariant RunPasses(cache.State(), items[i..], pass, count) == run
    {
      assert items[i..][1..] == items[i + 1..];
      var f, counted := SyncValidator(cache, chain, era, items[i].0, items[i].1, rate);
      if f.Some? {
        return f;
      }
      if counted {
        count := count + 1;
      }
      i := i + 1;
    }
    cache.HSetFields(INFO, map["validators" := NatToString(count)]);
    fault := None;
  }

  /** The stash, when it has a controller. */
  function BondedStash(chain: Chain, stash: string): set<string> {
    if stash in chain.bonded then {stash} else {}
  }

  /** The stash, when it has a controller whose active stake is nonzero. */
  function OwnStaker(chain: Chain, stash: string): set<string> {
    if stash in chain.bonded && ControllerStake(chain, chain.bonded[stash]) != 0 then {stash} else {}
  }

  /** The stashes among the entries that have a controller: the ones `validators` counts
      and writes. */
  function Bonded(chain: Chain, items: seq<(string, Prefs)>): set<string>
    decreases |items|
  {
    if items == [] then {} else BondedStash(chain, items[0].0) + Bonded(chain, items[1..])
  }

  /** The number of entries that have a controller. */
  function BondedCount(chain: Chain, items: seq<(string, Prefs)>): (n: nat)
    ensures n <= |items|
    decreases |items|
  {
    if items == [] then 0
    else (if items[0].0 in chain.bonded then 1 else 0) + BondedCount(chain, items[1..])
  }

  /** The bonded stashes whose controller has a nonzero active stake. */
  function OwnStakers(chain: Chain, items: seq<(string, Prefs)>): set<string>
    decreases |items|
  {
    if items == [] then {} else OwnStaker(chain, items[0].0) + OwnStakers(chain, items[1..])
  }

  // What one pass does, as properties of any pass; the loop lemmas below need only these.

  /** The pass counts a stash exactly when it has a controller. */
  ghost predicate CountsBonded(pass: (Db, string, Prefs) -> (Outcome, bool), chain: Chain) {
    forall db: Db, stash: string, prefs: Prefs :: pass(db, stash, prefs).1 <==> stash in chain.bonded
  }

  /** After a pass over `stash`: a bonded stash has its counters reset, and every record
      reset before still is. */
  ghost predicate ResetsAfter(db: Db, db': Db, chain: Chain, stash: string) {
    (stash in chain.bonded ==> CountersReset(db', stash)) &&
    (forall s :: CountersReset(db, s) ==> CountersReset(db', s))
  }

  ghost predicate KeepsResets(pass: (Db, string, Prefs) -> (Outcome, bool), chain: Chain) {
    forall db: Db, stash: string, prefs: Prefs :: pass(db, stash, prefs).0.fault.None? ==>
      ResetsAfter(db, pass(db, stash, prefs).0.db, chain, stash)
  }

  /** After a pass over `stash`: the own-stake board gains the stash when its stake is
      nonzero, the era's board of all validators gains it when it has a controller. */
  predicate BoardsAfter(db: Db, db': Db, chain: Chain, era: EraIndex, stash: string) {
    ZSetAt(db', OWN_STAKE_BOARD).Keys == ZSetAt(db, OWN_STAKE_BOARD).Keys + OwnStaker(chain, stash) &&
    ZSetAt(db', AllBoard(era)).Keys == ZSetAt(db, AllBoard(era)).Keys + BondedStash(chain, stash)
  }

  ghost predicate FillsBoards(pass: (Db, string, Prefs) -> (Outcome, bool), chain: Chain, era: EraIndex) {
    forall db: Db, stash: string, prefs: Prefs :: pass(db, stash, prefs).0.fault.None? ==>
      BoardsAfter(db, pass(db, stash, prefs).0.db, chain, era, stash)
  }

  /** The pass stops with `f` on every stash with a controller and goes on past the others. */
  ghost predicate StopsOnBonded(pass: (Db, string, Prefs) -> (Outcome, bool), chain: Chain, f: Fault<SyncError>) {
    forall db: Db, stash: string, prefs: Prefs ::
      pass(db, stash, prefs).0.fault == (if stash in chain.bonded then Some(f) else None)
  }

  // The pass of `validators` has those properties.

  lemma ValidatorPassCounts(chain: Chain, era: EraIndex, rate: (nat, nat) -> string)
    ensures CountsBonded(ValidatorPass(chain, era, rate), chain)
  {
  }

  /** A record holding the values `CountersReset` asks for. */
  predicate CountersHeld(data: Hash) {
    "active" in data && data["active"] == "false" &&
    "nominators" in data && data["nominators"] == "0" &&
    "nominators_stake" in data && data["nominators_stake"] == "0"
  }

  /** Hashes other than the validator's are untouched by writing its record. */
  lemma WriteRecordHashes(db: Db, era: EraIndex, stash: string, data: Hash, k: string)
    requires k != ValidatorKey(stash)
    ensures HashAt(WriteRecord(db, era, stash, data), k) == HashAt(db, k)
  {
  }

  /** A written record holding reset counters leaves them reset, and leaves every other
      validator's counters as they were. */
  lemma WriteRecordResets(db: Db, era: EraIndex, stash: string, data: Hash)
    requires CountersHeld(data)
    ensures CountersReset(WriteRecord(db, era, stash, data), stash)
    ensures forall s :: CountersReset(db, s) ==> CountersReset(WriteRecord(db, era, stash, data), s)
  {
    var db' := WriteRecord(db, era, stash, data);
    assert HashAt(db', ValidatorKey(stash)) == HashAt(db, ValidatorKey(stash)) + data;
    forall s | CountersReset(db, s)
      ensures CountersReset(db', s)
    {
      if s != stash {
        if ValidatorKey(s) == ValidatorKey(stash) {
          ValidatorKeyInjective(s, stash);
        }
        WriteRecordHashes(db, era, stash, data, ValidatorKey(s));
      }
    }
  }

  /** Writing a record adds the stash to the era's board of all validators. */
  lemma WriteRecordAllBoard(db: Db, era: EraIndex, stash: string, data: Hash)
    ensures ZSetAt(WriteRecord(db, era, stash, data), AllBoard(era)).Keys == ZSetAt(db, AllBoard(era)).Keys + {stash}
  {
    BoardsDistinct(era, BOARD_ALL_VALIDATORS, 0, BOARD_JUDGEMENTS_VALIDATORS);
    BoardsDistinct(era, BOARD_ALL_VALIDATORS, 0, BOARD_SUB_ACCOUNTS_VALIDATORS);
  }

  /** Writing a record leaves the own-stake board as it was. */
  lemma WriteRecordOwnBoard(db: Db, era: EraIndex, stash: string, data: Hash)
    ensures ZSetAt(WriteRecord(db, era, stash, data), OWN_STAKE_BOARD) == ZSetAt(db, OWN_STAKE_BOARD)
  {
    BoardsDistinct(0, BOARD_OWN_STAKE_VALIDATORS, era, BOARD_ALL_VALIDATORS);
    BoardsDistinct(0, BOARD_OWN_STAKE_VALIDATORS, 0, BOARD_JUDGEMENTS_VALIDATORS);
    BoardsDistinct(0, BOARD_OWN_STAKE_VALIDATORS, 0, BOARD_SUB_ACCOUNTS_VALIDATORS);
  }

  /** The own-stake entry touches only the own-stake board. */
  lemma OwnStakeEntryWrites(db: Db, chain: Chain, stash: string, era: EraIndex)
    requires stash in chain.bonded
    ensures var db' := OwnStakeEntry(db, chain, stash);
      db'.hashes == db.hashes &&
      ZSetAt(db', AllBoard(era)) == ZSetAt(db, AllBoard(era)) &&
      ZSetAt(db', OWN_STAKE_BOARD).Keys == ZSetAt(db, OWN_STAKE_BOARD).Keys + OwnStaker(chain, stash)
  {
    BoardsDistinct(0, BOARD_OWN_STAKE_VALIDATORS, era, BOARD_ALL_VALIDATORS);
  }

  /** Counters live in hashes: a write to sorted sets alone keeps them. */
  lemma SameHashesResets(db: Db, db': Db)
    requires db'.hashes == db.hashes
    ensures forall s :: CountersReset(db, s) ==> CountersReset(db', s)
  {
  }

  /** A pass over a stash that goes on leaves the counters as `ResetsAfter` says. */
  lemma ValidatorStepResets(db: Db, chain: Chain, era: EraIndex, stash: string, prefs: Prefs, rate: (nat, nat) -> string)
    requires ValidatorStep(db, chain, era, stash, prefs, rate).0.fault.None?
    ensures ResetsAfter(db, ValidatorStep(db, chain, era, stash, prefs, rate).0.db, chain, stash)
  {
    if stash in chain.bonded {
      var db1 := OwnStakeEntry(db, chain, stash);
      var data := ValidatorRecord(db1, chain, era, stash, prefs, rate, AvgRewardPoints(db1, stash, era - chain.historyDepth, era).value);
      assert ValidatorStep(db, chain, era, stash, prefs, rate).0.db == WriteRecord(db1, era, stash, data);
      OwnStakeEntryWrites(db, chain, stash, era);
      SameHashesResets(db, db1);
      WriteRecordResets(db1, era, stash, data);
    }
  }

  /** A pass over a stash that goes on fills the boards as `BoardsAfter` says. */
  lemma ValidatorStepBoards(db: Db, chain: Chain, era: EraIndex, stash: string, prefs: Prefs, rate: (nat, nat) -> string)
    requires ValidatorStep(db, chain, era, stash, prefs, rate).0.fault.None?
    ensures BoardsAfter(db, ValidatorStep(db, chain, era, stash, prefs, rate).0.db, chain, era, stash)
  {
    if stash in chain.bonded {
      var db1 := OwnStakeEntry(db, chain, stash);
      var data := ValidatorRecord(db1, chain, era, stash, prefs, rate, AvgRewardPoints(db1, stash, era - chain.historyDepth, era).value);
      OwnStakeEntryWrites(db, chain, stash, era);
      WriteRecordAllBoard(db1, era, stash, data);
      WriteRecordOwnBoard(db1, era, stash, data);
    }
  }

  lemma ValidatorPassResets(chain: Chain, era: EraIndex, rate: (nat, nat) -> string)
    ensures KeepsResets(ValidatorPass(chain, era, rate), chain)
  {
    forall db: Db, stash: string, prefs: Prefs | ValidatorStep(db, chain, era, stash, prefs, rate).0.fault.None?
      ensures ResetsAfter(db, ValidatorStep(db, chain, era, stash, prefs, rate).0.db, chain, stash)
    {
      ValidatorStepResets(db, chain, era, stash, prefs, rate);
    }
  }

  lemma ValidatorPassBoards(chain: Chain, era: EraIndex, rate: (nat, nat) -> string)
    ensures FillsBoards(ValidatorPass(chain, era, rate), chain, era)
  {
    forall db: Db, stash: string, prefs: Prefs | ValidatorStep(db, chain, era, stash, prefs, rate).0.fault.None?
      ensures BoardsAfter(db, ValidatorStep(db, chain, era, stash, prefs, rate).0.db, chain, era, stash)
    {
      ValidatorStepBoards(db, chain, era, stash, prefs, rate);
    }
  }

  /** With a history depth above the active era, every bonded stash makes the pass panic on
      the `u32` subtraction. */
  lemma ValidatorPassUnderflow(chain: Chain, era: EraIndex, rate: (nat, nat) -> string)
    requires chain.historyDepth > era
    ensures StopsOnBonded(ValidatorPass(chain, era, rate), chain, Panicked(SUB_OVERFLOW))
  {
  }

  // The loop, for any pass with those properties.

  /** The info hash keeps the count of the entries with a controller. */
  lemma {:induction false} RunPassesCount(db: Db, items: seq<(string, Prefs)>, pass: (Db, string, Prefs) -> (Outcome, bool),
                                          chain: Chain, count: nat)
    requires CountsBonded(pass, chain)
    requires RunPasses(db, items, pass, count).fault.None?
    ensures FieldAt(RunPasses(db, items, pass, count).db, INFO, "validators") ==
      Some(NatToString(count + BondedCount(chain, items)))
    decreases |items|
  {
    if items == [] {
      var info := map["validators" := NatToString(count)];
      assert FieldAt(HSet(db, INFO, info), INFO, "validators") == Some(info["validators"]);
    } else {
      var (o1, counted) := pass(db, items[0].0, items[0].1);
      RunPassesCount(o1.db, items[1..], pass, chain, if counted then count + 1 else count);
    }
  }

  /** Every bonded stash ends with its counters reset, and a record reset before stays so. */
  lemma {:induction false} RunPassesResets(db: Db, items: seq<(string, Prefs)>, pass: (Db, string, Prefs) -> (Outcome, bool),
                                           chain: Chain, count: nat, s: string)
    requires KeepsResets(pass, chain)
    requires RunPasses(db, items, pass, count).fault.None?
    requires s in Bonded(chain, items) || CountersReset(db, s)
    ensures CountersReset(RunPasses(db, items, pass, count).db, s)
    decreases |items|
  {
    if items == [] {
      NotInfoKey(Key.Validator(s));
    } else {
      var (o1, counted) := pass(db, items[0].0, items[0].1);
      assert ResetsAfter(db, o1.db, chain, items[0].0);
      RunPassesResets(o1.db, items[1..], pass, chain, if counted then count + 1 else count, s);
    }
  }

  /** The own-stake board gains exactly the bonded stashes whose controller has a nonzero
      stake. */
  lemma {:induction false} RunPassesOwnBoard(db: Db, items: seq<(string, Prefs)>, pass: (Db, string, Prefs) -> (Outcome, bool),
                                             chain: Chain, era: EraIndex, count: nat)
    requires FillsBoards(pass, chain, era)
    requires RunPasses(db, items, pass, count).fault.None?
    ensures ZSetAt(RunPasses(db, items, pass, count).db, OWN_STAKE_BOARD).Keys ==
      ZSetAt(db, OWN_STAKE_BOARD).Keys + OwnStakers(chain, items)
    decreases |items|
  {
    if items != [] {
      var (o1, counted) := pass(db, items[0].0, items[0].1);
      assert BoardsAfter(db, o1.db, chain, era, items[0].0);
      RunPassesOwnBoard(o1.db, items[1..], pass, chain, era, if counted then count + 1 else count);
    }
  }

  /** The era's board of all validators gains exactly the bonded stashes. */
  lemma {:induction false} RunPassesAllBoard(db: Db, items: seq<(string, Prefs)>, pass: (Db, string, Prefs) -> (Outcome, bool),
                                             chain: Chain, era: EraIndex, count: nat)
    requires FillsBoards(pass, chain, era)
    requires RunPasses(db, items, pass, count).fault.None?
    ensures ZSetAt(RunPasses(db, items, pass, count).db, AllBoard(era)).Keys ==
      ZSetAt(db, AllBoard(era)).Keys + Bonded(chain, items)
    decreases |items|
  {
    if items != [] {
      var (o1, counted) := pass(db, items[0].0, items[0].1);
      assert BoardsAfter(db, o1.db, chain, era, items[0].0);
      RunPassesAllBoard(o1.db, items[1..], pass, chain, era, if counted then count + 1 else count);
    }
  }

  /** The loop stops with `f` at the first entry with a controller. */
  lemma {:induction false} RunPassesStops(db: Db, items: seq<(string, Prefs)>, pass: (Db, string, Prefs) -> (Outcome, bool),
                                          chain: Chain, f: Fault<SyncError>, count: nat)
    requires StopsOnBonded(pass, chain, f) && Bonded(chain, items) != {}
    ensures RunPasses(db, items, pass, count).fault == Some(f)
    decreases |items|
  {
    var (o1, counted) := pass(db, items[0].0, items[0].1);
    if items[0].0 !in chain.bonded {
      RunPassesStops(o1.db, items[1..], pass, chain, f, if counted then count + 1 else count);
    }
  }

  // `validators` as a whole.

  /** When it completes, the info hash holds the number of validators with a controller. */
  lemma ValidatorsCount(db: Db, chain: Chain, rate: (nat, nat) -> string)
    requires ValidatorsStep(db, chain, rate).fault.None?
    ensures FieldAt(ValidatorsStep(db, chain, rate).db, INFO, "validators") ==
      Some(NatToString(BondedCount(chain, chain.validators)))
  {
    var era := chain.activeEra.value;
    ValidatorPassCounts(chain, era, rate);
    RunPassesCount(db, chain.validators, ValidatorPass(chain, era, rate), chain, 0);
  }

  /** When it completes, every validator with a controller has its record written with the
      counters reset: inactive, no nominators, no nominated stake. */
  lemma ValidatorsReset(db: Db, chain: Chain, rate: (nat, nat) -> string, stash: string)
    requires ValidatorsStep(db, chain, rate).fault.None?
    requires stash in Bonded(chain, chain.validators)
    ensures CountersReset(ValidatorsStep(db, chain, rate).db, stash)
  {
    var era := chain.activeEra.value;
    ValidatorPassResets(chain, era, rate);
    RunPassesResets(db, chain.validators, ValidatorPass(chain, era, rate), chain, 0, stash);
  }

  /** When it completes, the era's board of all validators has gained exactly the validators
      with a controller, and the own-stake board those whose controller has a stake. */
  lemma ValidatorsBoards(db: Db, chain: Chain, rate: (nat, nat) -> string)
    requires ValidatorsStep(db, chain, rate).fault.None?
    ensures var o := ValidatorsStep(db, chain, rate);
      ZSetAt(o.db, OWN_STAKE_BOARD).Keys == ZSetAt(db, OWN_STAKE_BOARD).Keys + OwnStakers(chain, chain.validators) &&
      ZSetAt(o.db, AllBoard(chain.activeEra.value)).Keys ==
        ZSetAt(db, AllBoard(chain.activeEra.value)).Keys + Bonded(chain, chain.validators)
  {
    var era := chain.activeEra.value;
    ValidatorPassBoards(chain, era, rate);
    RunPassesOwnBoard(db, chain.validators, ValidatorPass(chain, era, rate), chain, era, 0);
    RunPassesAllBoard(db, chain.validators, ValidatorPass(chain, era, rate), chain, era, 0);
  }

  /** A history depth above the active era makes `validators` panic as soon as one validator
      has a controller. */
  lemma ValidatorsUnderflow(db: Db, chain: Chain, rate: (nat, nat) -> string)
    requires chain.activeEra.Some? && chain.historyDepth > chain.activeEra.value
    requires Bonded(chain, chain.validators) != {}
    ensures ValidatorsStep(db, chain, rate).fault == Some(Panicked(SUB_OVERFLOW))
  {
    var era := chain.activeEra.value;
    ValidatorPassUnderflow(chain, era, rate);
    RunPassesStops(db, chain.validators, ValidatorPass(chain, era, rate), chain, Panicked(SUB_OVERFLOW), 0);
  }

  // ---------------------------------------------------------------------------------
  // The flag of the info hash is not touched by the validators

  ghost predicate PassKeepsInfo(pass: (Db, string, Prefs) -> (Outcome, bool)) {
    forall db: Db, stash: string, prefs: Prefs :: HashAt(pass(db, stash, prefs).0.db, INFO) == HashAt(db, INFO)
  }

  /** A pass of `validators` writes the validator's record and boards, never the info hash. */
  lemma ValidatorStepKeepsInfo(db: Db, chain: Chain, era: EraIndex, stash: string, prefs: Prefs, rate: (nat, nat) -> string)
    ensures HashAt(ValidatorStep(db, chain, era, stash, prefs, rate).0.db, INFO) == HashAt(db, INFO)
  {
    var r := ValidatorStep(db, chain, era, stash, prefs, rate).0.db;
    if stash in chain.bonded {
      var db1 := OwnStakeEntry(db, chain, stash);
      OwnStakeEntryWrites(db, chain, stash, era);
      assert HashAt(db1, INFO) == HashAt(db, INFO);
      if chain.historyDepth > era || AvgRewardPoints(db1, stash, era - chain.historyDepth, era).Err? {
        assert r == db1;
      } else {
        var data := ValidatorRecord(db1, chain, era, stash, prefs, rate, AvgRewardPoints(db1, stash, era - chain.historyDepth, era).value);
        assert r == WriteRecord(db1, era, stash, data);
        WriteRecordKeepsInfo(db1, era, stash, data);
      }
    }
  }

  lemma WriteRecordKeepsInfo(db: Db, era: EraIndex, stash: string, data: Hash)
    ensures HashAt(WriteRecord(db, era, stash, data), INFO) == HashAt(db, INFO)
  {
    NotInfoKey(Key.Validator(stash));
    WriteRecordHashes(db, era, stash, data, INFO);
  }

  lemma ValidatorPassKeepsInfo(chain: Chain, era: EraIndex, rate: (nat, nat) -> string)
    ensures PassKeepsInfo(ValidatorPass(chain, era, rate))
  {
    forall db: Db, stash: string, prefs: Prefs
      ensures HashAt(ValidatorStep(db, chain, era, stash, prefs, rate).0.db, INFO) == HashAt(db, INFO)
    {
      ValidatorStepKeepsInfo(db, chain, era, stash, prefs, rate);
    }
  }

  /** Writing a count to the info hash leaves the flag as it was. */
  lemma CountKeepsFlag(db: Db, field: string, count: nat)
    requires field != "syncing"
    ensures SameFlag(db, HSet(db, INFO, map[field := NatToString(count)]))
  {
  }

  lemma {:induction false} RunPassesKeepsFlag(db: Db, items: seq<(string, Prefs)>, pass: (Db, string, Prefs) -> (Outcome, bool),
                                              count: nat)
    requires PassKeepsInfo(pass)
    ensures SameFlag(db, RunPasses(db, items, pass, count).db)
    decreases |items|
  {
    if items == [] {
      CountKeepsFlag(db, "validators", count);
    } else {
      var (o, counted) := pass(db, items[0].0, items[0].1);
      if o.fault.None? {
        RunPassesKeepsFlag(o.db, items[1..], pass, if counted then count + 1 else count);
      }
    }
  }

  lemma ValidatorsKeepsFlag(db: Db, chain: Chain, rate: (nat, nat) -> string)
    ensures SameFlag(db, ValidatorsStep(db, chain, rate).db)
  {
    if chain.activeEra.Some? {
      ValidatorPassKeepsInfo(chain, chain.activeEra.value, rate);
      RunPassesKeepsFlag(db, chain.validators, ValidatorPass(chain, chain.activeEra.value, rate), 0);
    }
  }
}
