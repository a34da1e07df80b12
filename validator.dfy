/** The validator endpoints: one validator's cached record, its per-era history, and the
    leaderboards ranked by a user-weighted score. */
module ValidatorHandler {
  import opened Common
  import opened Text
  import opened Errors
  import opened Keys
  import opened Store
  import opened Fields

  // ---------------------------------------------------------------------------------
  // One validator

  /** `Validator`. The `f32` inclusion rate and `f64` mean reward points are kept as the text
      they are parsed from. */
  datatype ValidatorResponse = ValidatorResponse(
    stash: string,
    controller: string,
    name: string,
    ownStake: nat,
    totalStake: nat,
    othersStake: nat,
    stakers: nat,
    othersStakeClipped: nat,
    stakersClipped: nat,
    inclusionRate: string,
    meanRewardPoints: string,
    commission: nat,
    blocked: bool,
    active: bool,
    rewardStaked: bool)

  /** The decoding of a validator hash, with the mean reward points read from `meanField`. */
  function DecodeValidator(data: Hash, meanField: string): (r: ValidatorResponse)
    ensures r.ownStake < U128_BOUND && r.totalStake < U128_BOUND && r.othersStake < U128_BOUND
    ensures r.othersStakeClipped < U128_BOUND && r.stakers < U32_BOUND && r.stakersClipped < U32_BOUND
    ensures r.commission < U32_BOUND
    ensures r.blocked <==> "blocked" in data && data["blocked"] == "true"
    ensures r.active <==> "active" in data && data["active"] == "true"
    ensures r.rewardStaked <==> "reward_staked" in data && data["reward_staked"] == "true"
  {
    ValidatorResponse(
      TextField(data, "stash", ""),
      TextField(data, "controller", ""),
      TextField(data, "name", ""),
      NumberField(data, "own_stake", U128_BOUND),
      NumberField(data, "total_stake", U128_BOUND),
      NumberField(data, "others_stake", U128_BOUND),
      NumberField(data, "stakers", U32_BOUND),
      NumberField(data, "others_stake_clipped", U128_BOUND),
      NumberField(data, "stakers_clipped", U32_BOUND),
      TextField(data, "inclusion_rate", "0"),
      TextField(data, meanField, "0"),
      NumberField(data, "commission", U32_BOUND),
      FlagField(data, "blocked"),
      FlagField(data, "active"),
      FlagField(data, "reward_staked"))
  }

  /** `From<ValidatorCache> for Validator` as written: the mean is read from a field named
      "mean_reward_points", which the synchroniser never writes. */
  function ValidatorFromCacheAsWritten(data: Hash): (r: ValidatorResponse)
    ensures "mean_reward_points" !in data ==> r.meanRewardPoints == "0"
  {
    DecodeValidator(data, "mean_reward_points")
  }

  /** `From<ValidatorCache> for Validator` reading the mean from "avg_reward_points", the field
      the synchroniser writes it to. */
  function ValidatorFromCache(data: Hash): (r: ValidatorResponse)
    ensures "avg_reward_points" in data ==> r.meanRewardPoints == data["avg_reward_points"]
  {
    DecodeValidator(data, "avg_reward_points")
  }

  /** `AccountId32::from_str` on the path text, then the account's rendering in the chain's
      SS58 format, which the synchroniser sets once (sync.rs:175) and which both the cache key
      and the answer use: the canonical address, or the error the handler's `?` answers. The
      SS58 codec is not part of this model, so the parse is a parameter of the handlers. */
  type AddressParser = string -> Result<string, ApiError>

  /** The validator's cached hash with `stash` set to its canonical address, the map
      `get_validator` converts. It is never empty, so the handler's NotFound is never answered:
      an unknown stash is answered with a record that is empty apart from the stash. */
  function ValidatorHash(db: Db, stash: string): (h: Hash)
    ensures "stash" in h && h["stash"] == stash && |h| > 0
    ensures forall f :: f != "stash" ==> (f in h <==> f in HashAt(db, Render(Key.Validator(stash))))
    ensures forall f :: f != "stash" && f in h ==> h[f] == HashAt(db, Render(Key.Validator(stash)))[f]
  {
    var h := HashAt(db, Render(Key.Validator(stash)))["stash" := stash];
    assert "stash" in h;
    h
  }

  /** `get_validator` as written: parses the requested address, then converts the validator's
      hash with the `From` of validator.rs, which reads the mean from "mean_reward_points". */
  function GetValidator(db: Db, address: AddressParser, text: string): (r: Result<ValidatorResponse, ApiError>)
    ensures address(text).Err? ==> r == Err(address(text).error)
    ensures address(text).Ok? ==> r.Ok? && r.value.stash == address(text).value
    ensures address(text).Ok? ==> r == Ok(ValidatorFromCacheAsWritten(ValidatorHash(db, address(text).value)))
  {
    match address(text)
    case Err(e) => Err(e)
    case Ok(stash) =>
      var data := ValidatorHash(db, stash);
      if |data| == 0 then Err(NotFound("validator stash " + stash + " not available"))
      else Ok(ValidatorFromCacheAsWritten(data))
  }

  /** `get_validator` with the corrected conversion, which reads the mean from
      "avg_reward_points", where the synchroniser stores it. */
  function GetValidatorCorrected(db: Db, address: AddressParser, text: string): (r: Result<ValidatorResponse, ApiError>)
    ensures address(text).Err? ==> r == Err(address(text).error)
    ensures address(text).Ok? ==> r == Ok(ValidatorFromCache(ValidatorHash(db, address(text).value)))
  {
    match address(text)
    case Err(e) => Err(e)
    case Ok(stash) =>
      var data := ValidatorHash(db, stash);
      if |data| == 0 then Err(NotFound("validator stash " + stash + " not available"))
      else Ok(ValidatorFromCache(data))
  }

  /** A cached record holding its average under "avg_reward_points" and no
      "mean_reward_points" field, as the synchroniser writes it: the endpoint as written
      answers a mean of "0", the corrected one the stored average, and the two agree on
      every other field. */
  lemma GetValidatorMean(db: Db, address: AddressParser, text: string, stash: string)
    requires address(text) == Ok(stash)
    requires var h := HashAt(db, Render(Key.Validator(stash)));
      "avg_reward_points" in h && "mean_reward_points" !in h
    ensures GetValidator(db, address, text).value.meanRewardPoints == "0"
    ensures GetValidatorCorrected(db, address, text).value.meanRewardPoints ==
      HashAt(db, Render(Key.Validator(stash)))["avg_reward_points"]
    ensures GetValidator(db, address, text).value ==
      GetValidatorCorrected(db, address, text).value.(meanRewardPoints := "0")
  {
    var h := ValidatorHash(db, stash);
    assert "avg_reward_points" != "stash" && "mean_reward_points" != "stash";
    assert "mean_reward_points" !in h;
  }

  /** Two texts of the same account, in whatever SS58 format, are answered alike. */
  lemma GetValidatorSameAccount(db: Db, address: AddressParser, text1: string, text2: string)
    requires address(text1).Ok? && address(text1) == address(text2)
    ensures GetValidator(db, address, text1) == GetValidator(db, address, text2)
  {
  }

  /** An unknown stash is answered with zeros, empty texts and false flags. */
  lemma GetValidatorUnknown(db: Db, address: AddressParser, text: string, stash: string)
    requires address(text) == Ok(stash) && Render(Key.Validator(stash)) !in db.hashes
    ensures GetValidator(db, address, text) ==
      Ok(ValidatorResponse(stash, "", "", 0, 0, 0, 0, 0, 0, "0", "0", 0, false, false, false))
  {
    ParseNatToString(0, U32_BOUND);
    ParseNatToString(0, U128_BOUND);
  }

  // ---------------------------------------------------------------------------------
  // A validator's history

  datatype ValidatorEra = ValidatorEra(
    eraIndex: nat,
    ownStake: nat,
    totalStake: nat,
    othersStake: nat,
    stakers: nat,
    othersStakeClipped: nat,
    stakersClipped: nat,
    rewardPoints: nat,
    commission: nat,
    blocked: bool,
    active: bool)

  datatype ValidatorEraResponse = ValidatorEraResponse(stash: string, eras: seq<ValidatorEra>)

  /** `From<ValidatorEraCache> for ValidatorEra`. */
  function ValidatorEraFromCache(data: Hash): (r: ValidatorEra)
    ensures r.eraIndex < U32_BOUND && r.rewardPoints < U32_BOUND && r.commission < U32_BOUND
    ensures r.ownStake < U128_BOUND && r.totalStake < U128_BOUND && r.othersStake < U128_BOUND
    ensures r.active <==> "active" in data && data["active"] == "true"
  {
    ValidatorEra(
      NumberField(data, "era_index", U32_BOUND),
      NumberField(data, "own_stake", U128_BOUND),
      NumberField(data, "total_stake", U128_BOUND),
      NumberField(data, "others_stake", U128_BOUND),
      NumberField(data, "stakers", U32_BOUND),
      NumberField(data, "others_stake_clipped", U128_BOUND),
      NumberField(data, "stakers_clipped", U32_BOUND),
      NumberField(data, "reward_points", U32_BOUND),
      NumberField(data, "commission", U32_BOUND),
      FlagField(data, "blocked"),
      FlagField(data, "active"))
  }

  /** What one key found by the scan contributes: its hash, with `era_index` set to the text
      before the key's first ':' when it has one, decoded. */
  function EraEntryAt(db: Db, key: string): ValidatorEra {
    EntryFromHash(key, HashAt(db, key))
  }

  /** One history entry: the key's text before its first ':' stored as `era_index`, then the
      hash decoded. */
  function EntryFromHash(key: string, data: Hash): (r: ValidatorEra)
  {
    match FindChar(key, ':')
    case Some(x) => ValidatorEraFromCache(data["era_index" := key[..x]])
    case None => ValidatorEraFromCache(data)
  }

  /** The entries of the keys, in their order. */
  function EraEntries(db: Db, keys: seq<string>): seq<ValidatorEra>
    decreases |keys|
  {
    if keys == [] then [] else [EraEntryAt(db, keys[0])] + EraEntries(db, keys[1..])
  }

  /** The entries from key `i` on: key `i`'s entry, then those after it. */
  lemma EraEntriesStep(db: Db, keys: seq<string>, i: nat, e: ValidatorEra)
    requires i < |keys| && e == EraEntryAt(db, keys[i])
    ensures EraEntries(db, keys[i..]) == [e] + EraEntries(db, keys[i + 1..])
  {
    assert keys[i..][1..] == keys[i + 1..];
  }

  /** The keys `SCAN 0 MATCH *:era:{stash}:val` walks through. */
  function MatchingKeys(db: Db, stash: string): set<string> {
    set k | k in KeySpace(db) && Glob(Render(ValidatorAtEraScan(stash)), k)
  }

  predicate NonIncreasingEras(s: seq<ValidatorEra>) {
    forall i, j :: 0 <= i < j < |s| ==> s[i].eraIndex >= s[j].eraIndex
  }

  /** `x` placed before the first entry of a lower era. */
  function InsertByEra(x: ValidatorEra, t: seq<ValidatorEra>): (r: seq<ValidatorEra>)
    requires NonIncreasingEras(t)
    ensures NonIncreasingEras(r) && multiset(r) == multiset(t) + multiset{x}
    decreases |t|
  {
    if t == [] || x.eraIndex >= t[0].eraIndex then [x] + t
    else
      var rest := InsertByEra(x, t[1..]);
      InsertByEraHead(x, t, rest);
      [t[0]] + rest
  }

  lemma InsertByEraHead(x: ValidatorEra, t: seq<ValidatorEra>, rest: seq<ValidatorEra>)
    requires t != [] && x.eraIndex < t[0].eraIndex && NonIncreasingEras(t)
    requires NonIncreasingEras(rest) && multiset(rest) == multiset(t[1..]) + multiset{x}
    ensures NonIncreasingEras([t[0]] + rest)
    ensures multiset([t[0]] + rest) == multiset(t) + multiset{x}
  {
    assert t == [t[0]] + t[1..];
    forall y | y in rest
      ensures y.eraIndex <= t[0].eraIndex
    {
      assert y in multiset(rest);
      if y != x {
        assert y in multiset(t[1..]);
        var k :| 0 <= k < |t[1..]| && t[1..][k] == y;
        assert t[k + 1] == y;
      }
    }
    var r := [t[0]] + rest;
    forall i, j | 0 <= i < j < |r|
      ensures r[i].eraIndex >= r[j].eraIndex
    {
      assert r[j] == rest[j - 1] && rest[j - 1] in rest;
      if i > 0 {
        assert r[i] == rest[i - 1];
      }
    }
  }

  /** `eras.sort_by(|a, b| b.era_index.cmp(&a.era_index))`: the entries by era, the latest era first. */
  function SortByEraDescending(s: seq<ValidatorEra>): (r: seq<ValidatorEra>)
    ensures NonIncreasingEras(r) && multiset(r) == multiset(s)
    decreases |s|
  {
    if s == [] then []
    else
      assert s == [s[0]] + s[1..];
      InsertByEra(s[0], SortByEraDescending(s[1..]))
  }

  /** The cursor loop of `SCAN 0 MATCH pattern`, run until the cursor comes back to 0: every
      key of the key space that matches the pattern, each once. Redis chooses the order; the
      walk here takes the keys in an unspecified order. */
  method ScanMatching(cache: Cache, pattern: string) returns (keys: seq<string>)
    ensures forall k :: k in keys <==> k in KeySpace(cache.State()) && Glob(pattern, k)
    ensures forall i, j :: 0 <= i < j < |keys| ==> keys[i] != keys[j]
  {
    var remaining := cache.hashes.Keys + cache.zsets.Keys + cache.strings.Keys;
    ghost var done: set<string> := {};
    keys := [];
    while remaining != {}
      invariant remaining + done == KeySpace(cache.State()) && remaining !! done
      invariant forall k :: k in keys <==> k in done && Glob(pattern, k)
      invariant forall i, j :: 0 <= i < j < |keys| ==> keys[i] != keys[j]
      decreases |remaining|
    {
      var key :| key in remaining;
      remaining := remaining - {key};
      done := done + {key};
      if Glob(pattern, key) {
        keys := keys + [key];
      }
    }
  }

  /** The key holds a nonempty hash. */
  predicate Cached(db: Db, key: string) {
    |HashAt(db, key)| > 0
  }

  /** One step of `get_validator_eras`: the key's hash, None when it is empty, else decoded
      with the era index taken from the key. */
  method ReadEntry(cache: Cache, key: string) returns (e: Option<ValidatorEra>)
    ensures e.None? <==> !Cached(cache.State(), key)
    ensures e.Some? ==> e.value == EraEntryAt(cache.State(), key)
  {
    var data := cache.HGetAll(key);
    if |data| == 0 {
      return None;
    }
    e := Some(EntryFromHash(key, data));
  }

  /** The inner loop of `get_validator_eras`: each found key's entry in turn, or the first
      key whose hash is empty. */
  method ReadEntries(cache: Cache, found: seq<string>) returns (r: Result<seq<ValidatorEra>, string>)
    ensures r.Ok? ==> r.value == EraEntries(cache.State(), found)
    ensures r.Ok? ==> forall j :: 0 <= j < |found| ==> Cached(cache.State(), found[j])
    ensures r.Err? ==> r.error in found && !Cached(cache.State(), r.error)
  {
    ghost var db := cache.State();
    var eras: seq<ValidatorEra> := [];
    assert found[0..] == found;
    var i := 0;
    while i < |found|
      invariant 0 <= i <= |found|
      invariant EraEntries(db, found) == eras + EraEntries(db, found[i..])
      invariant forall j :: 0 <= j < i ==> Cached(db, found[j])
    {
      var key := found[i];
      var entry := ReadEntry(cache, key);
      match entry {
        case None =>
          return Err(key);
        case Some(e) =>
          EraEntriesStep(db, found, i, e);
          eras := eras + [e];
      }
      i := i + 1;
    }
    r := Ok(eras);
  }

  /** `get_validator_eras`: parses the requested address; then scans for the keys matching the
      canonical address's pattern `*:era:{stash}:val`, and for each reads its hash (NotFound for
      an empty one), takes the era index from the key's text before its first ':' and decodes
      the entry; then sorts the entries, the latest era first. `keys` is the order the scan
      found the keys in. */
  method GetValidatorEras(cache: Cache, address: AddressParser, text: string)
    returns (r: Result<ValidatorEraResponse, ApiError>, ghost keys: seq<string>)
    ensures address(text).Err? ==> r == Err(address(text).error)
    ensures address(text).Ok? ==> var stash := address(text).value;
      (r.Ok? ==> r.value.stash == stash && NonIncreasingEras(r.value.eras)) &&
      (r.Ok? ==>
        (forall k :: k in keys <==> k in MatchingKeys(cache.State(), stash)) &&
        (forall i, j :: 0 <= i < j < |keys| ==> keys[i] != keys[j]) &&
        multiset(r.value.eras) == multiset(EraEntries(cache.State(), keys))) &&
      (r.Err? <==> exists k :: k in MatchingKeys(cache.State(), stash) && !Cached(cache.State(), k)) &&
      (r.Err? ==> r.error.NotFound?)
  {
    keys := [];
    match address(text)
    case Err(e) =>
      r := Err(e);
    case Ok(stash) =>
      r, keys := ValidatorErasOf(cache, stash);
  }

  /** The scan, reads and sort of `get_validator_eras` for a canonical address. */
  method ValidatorErasOf(cache: Cache, stash: string) returns (r: Result<ValidatorEraResponse, ApiError>, ghost keys: seq<string>)
    ensures r.Ok? ==> r.value.stash == stash && NonIncreasingEras(r.value.eras)
    ensures r.Ok? ==>
      (forall k :: k in keys <==> k in MatchingKeys(cache.State(), stash)) &&
      (forall i, j :: 0 <= i < j < |keys| ==> keys[i] != keys[j]) &&
      multiset(r.value.eras) == multiset(EraEntries(cache.State(), keys))
    ensures r.Err? <==> exists k :: k in MatchingKeys(cache.State(), stash) && !Cached(cache.State(), k)
    ensures r.Err? ==> r.error.NotFound?
  {
    var found := ScanMatching(cache, Render(ValidatorAtEraScan(stash)));
    keys := found;
    var entries := ReadEntries(cache, found);
    match entries
    case Err(key) =>
      assert key in MatchingKeys(cache.State(), stash);
      r := Err(NotFound("cache key " + key + " not available"));
    case Ok(eras) =>
      forall k | k in MatchingKeys(cache.State(), stash)
        ensures Cached(cache.State(), k)
      {
        var j :| 0 <= j < |found| && found[j] == k;
      }
      r := Ok(ValidatorEraResponse(stash, SortByEraDescending(eras)));
  }

  // ---------------------------------------------------------------------------------
  // Leaderboards: the `w` parameter and the board it names

  datatype Query = All | Active | Board

  /** `Display for Queries`. */
  function QueryName(q: Query): string {
    match q
    case All => "all"
    case Active => "active"
    case Board => "board"
  }

  /** One comma-separated field of `w`: its `u32` value capped at 10, or 5 when it is not a
      `u32` (empty, not a number, too large for `u32`). */
  function WeightOf(field: string): (w: nat)
    ensures w <= 10
    ensures ParseUnsigned(field, U32_BOUND).None? ==> w == 5
    ensures ParseUnsigned(field, U32_BOUND).Some? && ParseUnsigned(field, U32_BOUND).value <= 10 ==>
      w == ParseUnsigned(field, U32_BOUND).value
    ensures ParseUnsigned(field, U32_BOUND).Some? && ParseUnsigned(field, U32_BOUND).value > 10 ==> w == 10
  {
    var weight := match ParseUnsigned(field, U32_BOUND)
      case Some(v) => v
      case None => 5;
    if weight > 10 then 10 else weight
  }

  function WeightsOf(fields: seq<string>): (w: seq<nat>)
    ensures |w| == |fields| && forall i :: 0 <= i < |fields| ==> w[i] == WeightOf(fields[i])
    decreases |fields|
  {
    if fields == [] then [] else [WeightOf(fields[0])] + WeightsOf(fields[1..])
  }

  /** `parse_weights`: one weight per comma-separated field of the text, each at most 10. */
  function ParseWeights(text: string): (w: seq<nat>)
    ensures |w| == CountChar(text, ',') + 1
    ensures forall i :: 0 <= i < |w| ==> w[i] <= 10
  {
    SplitCount(text, ',');
    WeightsOf(Split(text, ','))
  }

  /** The weights of a request: `parse_weights` of the `w` parameter, and by `#[serde(default)]`
      no weights at all when the parameter is missing. */
  function ParamsWeights(w: Option<string>): seq<nat> {
    match w
    case None => []
    case Some(text) => ParseWeights(text)
  }

  /** An empty `w` is one empty field, read as the weight 5. */
  lemma ParseWeightsEmpty()
    ensures ParseWeights("") == [5]
  {
    assert Split("", ',') == [""];
  }

  /** `get_board_name`: the first weight's decimal text, then ",{weight}" for each other weight. */
  function BoardName(w: seq<nat>): string {
    if w == [] then "" else NatToString(w[0]) + BoardNameTail(w[1..])
  }

  function BoardNameTail(w: seq<nat>): string
    decreases |w|
  {
    if w == [] then "" else "," + NatToString(w[0]) + BoardNameTail(w[1..])
  }

  function WeightTexts(w: seq<nat>): (t: seq<string>)
    ensures |t| == |w| && forall i :: 0 <= i < |w| ==> t[i] == NatToString(w[i])
    decreases |w|
  {
    if w == [] then [] else [NatToString(w[0])] + WeightTexts(w[1..])
  }

  lemma {:induction false} BoardNameTailJoin(w: seq<nat>)
    requires |w| >= 1
    ensures BoardNameTail(w) == "," + Join(WeightTexts(w), ',')
    decreases |w|
  {
    if |w| > 1 {
      BoardNameTailJoin(w[1..]);
      assert WeightTexts(w)[1..] == WeightTexts(w[1..]);
    }
  }

  /** The board name is the weights' texts joined with ',': no leading or trailing comma. */
  lemma BoardNameIsJoin(w: seq<nat>)
    ensures BoardName(w) == Join(WeightTexts(w), ',')
  {
    if |w| > 1 {
      BoardNameTailJoin(w[1..]);
      assert WeightTexts(w)[1..] == WeightTexts(w[1..]);
    }
  }

  lemma WeightsOfTexts(w: seq<nat>)
    requires forall i :: 0 <= i < |w| ==> w[i] <= 10
    ensures WeightsOf(WeightTexts(w)) == w
  {
    forall i | 0 <= i < |w|
      ensures WeightOf(WeightTexts(w)[i]) == w[i]
    {
      ParseNatToString(w[i], U32_BOUND);
    }
  }

  /** Reading a board name back as the `w` parameter gives the weights it was made from,
      for a nonempty list of weights no larger than 10 (what `parse_weights` yields). */
  lemma ParseWeightsBoardName(w: seq<nat>)
    requires |w| >= 1 && forall i :: 0 <= i < |w| ==> w[i] <= 10
    ensures ParseWeights(BoardName(w)) == w
  {
    BoardNameIsJoin(w);
    var texts := WeightTexts(w);
    forall i | 0 <= i < |texts|
      ensures ',' !in texts[i]
    {
      assert AllDigits(texts[i]);
    }
    SplitJoin(texts, ',');
    WeightsOfTexts(w);
  }

  /** Two weight lists of the same kind never share a board; a board name has one comma
      fewer than weights. */
  lemma BoardNameInjective(w1: seq<nat>, w2: seq<nat>)
    requires |w1| >= 1 && forall i :: 0 <= i < |w1| ==> w1[i] <= 10
    requires |w2| >= 1 && forall i :: 0 <= i < |w2| ==> w2[i] <= 10
    ensures BoardName(w1) == BoardName(w2) <==> w1 == w2
    ensures CountChar(BoardName(w1), ',') == |w1| - 1
  {
    ParseWeightsBoardName(w1);
    ParseWeightsBoardName(w2);
  }

  /** A request's weights always come back from the board they name, unless the request has
      no `w` (the empty list names the board "").
      */
  lemma ParamsWeightsBoardName(w: Option<string>)
    requires w.Some?
    ensures ParseWeights(BoardName(ParamsWeights(w))) == ParamsWeights(w)
  {
    ParseWeightsBoardName(ParamsWeights(w));
  }

  // ---------------------------------------------------------------------------------
  // Leaderboards: the score

  /** `normaliza_commission`: `100 - commission / 10_000_000` in `u32`, the commission being
      in parts per billion. The subtraction underflows, which panics (None), once the
      quotient passes 100, that is from 1_010_000_000 on. */
  function NormalizeCommission(commission: nat): (r: Option<nat>)
    ensures r.Some? <==> commission < 1_010_000_000
    ensures r.Some? ==> r.value <= 100
  {
    var q := commission / 10_000_000;
    if q <= 100 then Some(100 - q) else None
  }

  /** A commission of at most 100% normalises into [0, 100]: 100 for no commission, 0 for all. */
  lemma NormalizeCommissionRange(commission: nat)
    requires commission <= 1_000_000_000
    ensures NormalizeCommission(commission).Some?
    ensures NormalizeCommission(0) == Some(100) && NormalizeCommission(1_000_000_000) == Some(0)
  {
  }

  /** A higher commission never normalises higher. */
  lemma NormalizeCommissionAntitone(c1: nat, c2: nat)
    requires c1 <= c2 < 1_010_000_000
    ensures NormalizeCommission(c1).value >= NormalizeCommission(c2).value
  {
    DivMonotone(c1, c2, 10_000_000);
  }

  lemma DivMonotone(a: nat, b: nat, d: nat)
    requires a <= b && d > 0
    ensures a / d <= b / d
  {
    if a / d > b / d {
      MulMonotone(d, b / d + 1, a / d);
      assert false;
    }
  }

  lemma MulNat(a: nat, b: nat)
    ensures a * b >= 0
  {
  }

  lemma MulMonotone(a: nat, b: nat, c: nat)
    requires b <= c
    ensures a * b <= a * c
  {
    assert a * c - a * b == a * (c - b);
  }

  /** The score `generate_board` gives: inclusion times the first weight, plus normalised
      commission times the second, plus 100 times the third weight when rewards are staked,
      plus 100 times the fourth when the validator is active. */
  function WeightedTotal(inclusion: nat, commission: nat, staked: bool, active: bool, w: seq<nat>): nat
    requires |w| >= 4
  {
    inclusion * w[0] + commission * w[1] + (if staked then 1 else 0) * w[2] * 100 + (if active then 1 else 0) * w[3] * 100
  }

  /** `u32` arithmetic of a debug build: a result of 2^32 or more panics. */
  function CheckedMul(a: nat, b: nat): Result<nat, string> {
    if a * b < U32_BOUND then Ok(a * b) else Err("attempt to multiply with overflow")
  }

  function CheckedAdd(a: nat, b: nat): Result<nat, string> {
    if a + b < U32_BOUND then Ok(a + b) else Err("attempt to add with overflow")
  }

  function WeightAt(w: seq<nat>, i: nat): Result<nat, string> {
    if i < |w| then Ok(w[i]) else Err("index out of bounds")
  }

  /** The score expression of `generate_board`, evaluated left to right in `u32` with the
      panics of a debug build (Err with the panic message): an index past the weights, the
      commission's underflow, and any product or sum of 2^32 or more. It is a number exactly
      when there are four weights, the commission normalises and the whole sum fits in `u32`;
      the number is then the weighted total. */
  function Score(inclusion: u32, commission: nat, staked: bool, active: bool, w: seq<nat>): (r: Result<nat, string>)
    ensures r.Ok? <==> (|w| >= 4 && NormalizeCommission(commission).Some? &&
      WeightedTotal(inclusion, NormalizeCommission(commission).value, staked, active, w) < U32_BOUND)
    ensures r.Ok? ==> r.value == WeightedTotal(inclusion, NormalizeCommission(commission).value, staked, active, w)
  {
    match WeightAt(w, 0)
    case Err(p) => Err(p)
    case Ok(w0) =>
      match CheckedMul(inclusion, w0)
      case Err(p) => PartialSumTooLarge(inclusion, commission, staked, active, w); Err(p)
      case Ok(t0) =>
        match NormalizeCommission(commission)
        case None => Err("attempt to subtract with overflow")
        case Some(c) =>
          match WeightAt(w, 1)
          case Err(p) => Err(p)
          case Ok(w1) =>
            match CheckedMul(c, w1)
            case Err(p) => PartialSumTooLarge(inclusion, commission, staked, active, w); Err(p)
            case Ok(t1) =>
              match CheckedAdd(t0, t1)
              case Err(p) => PartialSumTooLarge(inclusion, commission, staked, active, w); Err(p)
              case Ok(s1) =>
                var b2: nat := if staked then 1 else 0;
                match WeightAt(w, 2)
                case Err(p) => Err(p)
                case Ok(w2) =>
                  match CheckedMul(b2, w2)
                  case Err(p) => PartialSumTooLarge(inclusion, commission, staked, active, w); Err(p)
                  case Ok(t2) =>
                    match CheckedMul(t2, 100)
                    case Err(p) => PartialSumTooLarge(inclusion, commission, staked, active, w); Err(p)
                    case Ok(t2h) =>
                      match CheckedAdd(s1, t2h)
                      case Err(p) => PartialSumTooLarge(inclusion, commission, staked, active, w); Err(p)
                      case Ok(s2) =>
                        var b3: nat := if active then 1 else 0;
                        match WeightAt(w, 3)
                        case Err(p) => Err(p)
                        case Ok(w3) =>
                          match CheckedMul(b3, w3)
                          case Err(p) => PartialSumTooLarge(inclusion, commission, staked, active, w); Err(p)
                          case Ok(t3) =>
                            match CheckedMul(t3, 100)
                            case Err(p) => PartialSumTooLarge(inclusion, commission, staked, active, w); Err(p)
                            case Ok(t3h) =>
                              CheckedAdd(s2, t3h)
  }

  /** Each product and partial sum of the score is at most the whole. */
  lemma PartialSumTooLarge(inclusion: nat, commission: nat, staked: bool, active: bool, w: seq<nat>)
    ensures |w| >= 4 && NormalizeCommission(commission).Some? ==>
      var c := NormalizeCommission(commission).value;
      var b2: nat := if staked then 1 else 0;
      var b3: nat := if active then 1 else 0;
      inclusion * w[0] <= WeightedTotal(inclusion, c, staked, active, w) &&
      c * w[1] <= WeightedTotal(inclusion, c, staked, active, w) &&
      b2 * w[2] <= b2 * w[2] * 100 <= WeightedTotal(inclusion, c, staked, active, w) &&
      b3 * w[3] <= b3 * w[3] * 100 <= WeightedTotal(inclusion, c, staked, active, w)
  {
    if |w| >= 4 && NormalizeCommission(commission).Some? {
      var c := NormalizeCommission(commission).value;
      var b2: nat := if staked then 1 else 0;
      var b3: nat := if active then 1 else 0;
      MulNat(inclusion, w[0]);
      MulNat(c, w[1]);
      MulNat(b2, w[2]);
      MulNat(b3, w[3]);
    }
  }

  /** Raising a weight never lowers a score, nor makes it overflow unless the raised score
      would: a score under higher weights that is a number bounds the score under lower ones. */
  lemma ScoreMonotoneInWeights(inclusion: u32, commission: nat, staked: bool, active: bool, w: seq<nat>, w': seq<nat>)
    requires |w| >= 4 && |w'| >= 4 && forall i :: 0 <= i < 4 ==> w[i] <= w'[i]
    requires Score(inclusion, commission, staked, active, w').Ok?
    ensures Score(inclusion, commission, staked, active, w).Ok?
    ensures Score(inclusion, commission, staked, active, w).value <= Score(inclusion, commission, staked, active, w').value
  {
    var c := NormalizeCommission(commission).value;
    var b2: nat := if staked then 1 else 0;
    var b3: nat := if active then 1 else 0;
    MulMonotone(inclusion, w[0], w'[0]);
    MulMonotone(c, w[1], w'[1]);
    MulMonotone(b2, w[2], w'[2]);
    MulMonotone(b3, w[3], w'[3]);
    assert b2 * w[2] * 100 <= b2 * w'[2] * 100;
    assert b3 * w[3] * 100 <= b3 * w'[3] * 100;
  }

  /** Staking rewards and being active never lower a score. */
  lemma ScoreMonotoneInFlags(inclusion: u32, commission: nat, staked: bool, active: bool, staked': bool, active': bool, w: seq<nat>)
    requires staked ==> staked'
    requires active ==> active'
    requires Score(inclusion, commission, staked', active', w).Ok?
    ensures Score(inclusion, commission, staked, active, w).Ok?
    ensures Score(inclusion, commission, staked, active, w).value <= Score(inclusion, commission, staked', active', w).value
  {
  }

  /** A lower commission never lowers a score. */
  lemma ScoreAntitoneInCommission(inclusion: u32, c1: nat, c2: nat, staked: bool, active: bool, w: seq<nat>)
    requires c1 <= c2
    requires Score(inclusion, c1, staked, active, w).Ok? && NormalizeCommission(c2).Some?
    ensures Score(inclusion, c2, staked, active, w).Ok?
    ensures Score(inclusion, c2, staked, active, w).value <= Score(inclusion, c1, staked, active, w).value
  {
    NormalizeCommissionAntitone(c1, c2);
    MulMonotone(w[1], NormalizeCommission(c2).value, NormalizeCommission(c1).value);
  }

  // ---------------------------------------------------------------------------------
  // Leaderboards: generating and answering

  /** The score of one validator, from its stored record; `inclusion` stands for
      `normaliza_inclusion`, the rounding of the stored `f32` rate to a percentage. */
  function ValidatorScore(v: ValidatorResponse, w: seq<nat>, inclusion: string -> u32): Result<nat, string> {
    Score(inclusion(v.inclusionRate), v.commission, v.rewardStaked, v.active, w)
  }

  /** The record `generate_board` reads for a stash: its `Validator` hash decoded. */
  function RecordOf(db: Db, stash: string): ValidatorResponse {
    ValidatorFromCache(HashAt(db, Render(Key.Validator(stash))))
  }

  /** What generating a board leaves behind: the database, and the panic that stopped it, if any. */
  datatype BoardRun = BoardRun(db: Db, panic: Option<string>)

  /** `generate_board`'s loop over `stashes`, as a function of the database: a blocked
      validator is skipped; any other is added to the board `key` under its score, and a
      score that panics ends the run there. */
  function RunBoard(db: Db, key: string, stashes: seq<string>, w: seq<nat>, inclusion: string -> u32): (r: BoardRun)
    ensures r.db.hashes == db.hashes && r.db.strings == db.strings
    ensures forall k :: k != key ==> (k in r.db.zsets <==> k in db.zsets) && (k in db.zsets ==> r.db.zsets[k] == db.zsets[k])
    ensures r.panic.None? <==> forall s :: s in stashes && !RecordOf(db, s).blocked ==> ValidatorScore(RecordOf(db, s), w, inclusion).Ok?
    ensures r.panic.None? ==> forall m :: m in ZSetAt(r.db, key) <==> m in ZSetAt(db, key) || (m in stashes && !RecordOf(db, m).blocked)
    ensures r.panic.None? ==> forall m :: m in stashes && !RecordOf(db, m).blocked ==>
      ZSetAt(r.db, key)[m] == ValidatorScore(RecordOf(db, m), w, inclusion).value
    ensures forall m :: m in ZSetAt(db, key) && m !in stashes ==> m in ZSetAt(r.db, key) && ZSetAt(r.db, key)[m] == ZSetAt(db, key)[m]
    decreases |stashes|
  {
    if stashes == [] then BoardRun(db, None)
    else
      var stash := stashes[0];
      assert forall s :: s in stashes <==> s == stash || s in stashes[1..];
      var v := RecordOf(db, stash);
      if v.blocked then RunBoard(db, key, stashes[1..], w, inclusion)
      else
        match ValidatorScore(v, w, inclusion)
        case Err(p) => BoardRun(db, Some(p))
        case Ok(score) =>
          var next := ZAdd(db, key, score, stash);
          assert forall s :: RecordOf(next, s) == RecordOf(db, s);
          RunBoard(next, key, stashes[1..], w, inclusion)
  }

  /** `generate_board`: reads every stash of the board named `allName` of the era (lowest
      score first), and for each unblocked validator adds the stash under its score to the
      board named after the weights. The result is the panic that ended it, if any. */
  method GenerateBoard(cache: Cache, era: EraIndex, w: seq<nat>, allName: string, inclusion: string -> u32) returns (panic: Option<string>)
    modifies cache
    ensures var run := RunBoard(old(cache.State()), Render(Key.BoardAtEra(era, BoardName(w))),
      Ascending(ZSetAt(old(cache.State()), Render(Key.BoardAtEra(era, allName)))), w, inclusion);
      cache.State() == run.db && panic == run.panic
  {
    var stashes := cache.ZRangeAll(Render(Key.BoardAtEra(era, allName)));
    var key := Render(Key.BoardAtEra(era, BoardName(w)));
    ghost var run := RunBoard(cache.State(), key, stashes, w, inclusion);
    var i := 0;
    while i < |stashes|
      invariant 0 <= i <= |stashes|
      invariant RunBoard(cache.State(), key, stashes[i..], w, inclusion) == run
    {
      var stash := stashes[i];
      assert stashes[i..][1..] == stashes[i + 1..];
      var data := cache.HGetAll(Render(Key.Validator(stash)));
      var v := ValidatorFromCache(data);
      if !v.blocked {
        var score := ValidatorScore(v, w, inclusion);
        match score {
          case Err(p) =>
            return Some(p);
          case Ok(s) =>
            cache.ZAddMember(key, s, stash);
        }
      }
      i := i + 1;
    }
    panic := None;
  }

  /** The two board names a query for all or for active validators reads. */
  datatype BoardNames = BoardNames(all: string, active: string)

  /** The names `get_validators` and `generate_board` read, from `Display for Queries`. */
  const NAMES_AS_WRITTEN := BoardNames("all", "active")

  /** The names the synchroniser writes the boards under. */
  const NAMES_SYNCED := BoardNames(BOARD_ALL_VALIDATORS, BOARD_ACTIVE_VALIDATORS)

  /** The board a query reads in an era. */
  function QueryBoard(names: BoardNames, era: EraIndex, q: Query, w: seq<nat>): string {
    match q
    case Active => Render(Key.BoardAtEra(era, names.active))
    case All => Render(Key.BoardAtEra(era, names.all))
    case Board => Render(Key.BoardAtEra(era, BoardName(w)))
  }

  /** The detail the Redis client reports when `GET era:active` yields no `u32`. */
  const ACTIVE_ERA_DETAIL := "Response was of incompatible type"

  /** The answer of `get_validators`, and the database it leaves, as a function of the
      database before: the active era (an internal server error when it is missing or
      not a `u32`), the board of the query, generated when no key of that name exists, and
      the first `n` stashes of the board from the highest score down. */
  datatype Answer = Answer(db: Db, result: Result<seq<string>, Fault<ApiError>>)

  function ValidatorsAnswer(db: Db, names: BoardNames, q: Query, w: seq<nat>, n: nat, inclusion: string -> u32): (a: Answer)
    ensures a.db.hashes == db.hashes && a.db.strings == db.strings
    ensures a.result.Ok? ==> |a.result.value| <= n
  {
    var era := if Render(Key.ActiveEra) in db.strings then ParseUnsigned(db.strings[Render(Key.ActiveEra)], U32_BOUND) else None;
    match era
    case None => Answer(db, Err(Raised(CacheToApiError(RedisCMDError(ACTIVE_ERA_DETAIL)))))
    case Some(e) =>
      var key := QueryBoard(names, e, q, w);
      var run := if Exists(db, key) then BoardRun(db, None)
        else RunBoard(db, Render(Key.BoardAtEra(e, BoardName(w))), Ascending(ZSetAt(db, Render(Key.BoardAtEra(e, names.all)))), w, inclusion);
      match run.panic
      case Some(p) => Answer(run.db, Err(Panicked(p)))
      case None => Answer(run.db, Ok(RevRangeByScore(ZSetAt(run.db, key), 0, n)))
  }

  /** `get_validators`. */
  method GetValidators(cache: Cache, names: BoardNames, q: Query, w: seq<nat>, n: nat, inclusion: string -> u32)
    returns (r: Result<seq<string>, Fault<ApiError>>)
    modifies cache
    ensures cache.State() == ValidatorsAnswer(old(cache.State()), names, q, w, n, inclusion).db
    ensures r == ValidatorsAnswer(old(cache.State()), names, q, w, n, inclusion).result
  {
    var text := cache.Get(Render(Key.ActiveEra));
    var era: EraIndex;
    match text {
      case None =>
        return Err(Raised(CacheToApiError(RedisCMDError(ACTIVE_ERA_DETAIL))));
      case Some(t) =>
        match ParseUnsigned(t, U32_BOUND) {
          case None =>
            return Err(Raised(CacheToApiError(RedisCMDError(ACTIVE_ERA_DETAIL))));
          case Some(e) =>
            era := e;
        }
    }
    var key := QueryBoard(names, era, q, w);
    var present := cache.KeyExists(key);
    if !present {
      var panic := GenerateBoard(cache, era, w, names.all, inclusion);
      if panic.Some? {
        return Err(Panicked(panic.value));
      }
    }
    var stashes := cache.ZRevRangeByScore(key, 0, n);
    r := Ok(stashes);
  }

  /** The active era as `get_validators` reads it. */
  function ActiveEraOf(db: Db): Option<nat> {
    if Render(Key.ActiveEra) in db.strings then ParseUnsigned(db.strings[Render(Key.ActiveEra)], U32_BOUND) else None
  }

  /** Without a readable active era the request fails with an internal server error (500)
      and nothing is written. */
  lemma NoActiveEra(db: Db, names: BoardNames, q: Query, w: seq<nat>, n: nat, inclusion: string -> u32)
    requires ActiveEraOf(db).None?
    ensures ValidatorsAnswer(db, names, q, w, n, inclusion).db == db
    ensures ValidatorsAnswer(db, names, q, w, n, inclusion).result.Err?
    ensures ErrorAnswer(ValidatorsAnswer(db, names, q, w, n, inclusion).result.error.error).status == 500
  {
  }

  /** A board that exists is answered as it is, without being regenerated: the first `n`
      stashes from the highest score down, and the database unchanged. */
  lemma ExistingBoardReused(db: Db, names: BoardNames, q: Query, w: seq<nat>, n: nat, inclusion: string -> u32)
    requires ActiveEraOf(db).Some? && Exists(db, QueryBoard(names, ActiveEraOf(db).value, q, w))
    ensures ValidatorsAnswer(db, names, q, w, n, inclusion) ==
      Answer(db, Ok(RevRangeByScore(ZSetAt(db, QueryBoard(names, ActiveEraOf(db).value, q, w)), 0, n)))
  {
  }

  /** Every answer is ranked: at most `n` stashes of the board, from the highest score down,
      and any stash of the board left out scores no higher than the last one answered. */
  lemma AnswerRanked(db: Db, names: BoardNames, q: Query, w: seq<nat>, n: nat, inclusion: string -> u32,
                     e: EraIndex, db': Db, r: seq<string>)
    requires ActiveEraOf(db) == Some(e)
    requires ValidatorsAnswer(db, names, q, w, n, inclusion) == Answer(db', Ok(r))
    ensures var z := ZSetAt(db', QueryBoard(names, e, q, w));
      |r| <= n && OrderedDown(z, r) && (forall m :: m in r ==> m in z) &&
      forall m :: m in z && 0 <= z[m] && m !in r ==> |r| == n && (n == 0 || Precedes(m, z[m], r[n - 1], z[r[n - 1]]))
  {
  }

  /** A board generated for a weights query holds exactly the unblocked validators of the
      era's board of all validators, each under its score, so the answer holds no blocked
      validator. */
  lemma GeneratedBoardAnswer(db: Db, names: BoardNames, w: seq<nat>, n: nat, inclusion: string -> u32,
                             e: EraIndex, db': Db, r: seq<string>)
    requires ActiveEraOf(db) == Some(e) && !Exists(db, QueryBoard(names, e, Board, w))
    requires ValidatorsAnswer(db, names, Board, w, n, inclusion) == Answer(db', Ok(r))
    ensures var all := ZSetAt(db, Render(Key.BoardAtEra(e, names.all)));
      var board := ZSetAt(db', QueryBoard(names, e, Board, w));
      (forall m :: m in board <==> m in all && !RecordOf(db, m).blocked) &&
      (forall m :: m in board ==> board[m] == ValidatorScore(RecordOf(db, m), w, inclusion).value) &&
      forall m :: m in r ==> m in all && !RecordOf(db, m).blocked
  {
    var all := ZSetAt(db, Render(Key.BoardAtEra(e, names.all)));
    assert forall m :: m in Ascending(all) <==> m in all;
  }

  /** An answered board under the names the synchroniser writes: when the era's
      board is nonempty and every score on it is at least 0 (the synchroniser scores every stash 0),
      a request for at least one stash gets at least one. */
  lemma SyncedBoardAnswered(db: Db, q: Query, w: seq<nat>, n: nat, inclusion: string -> u32, e: EraIndex, key: string)
    requires q != Board && n > 0 && ActiveEraOf(db) == Some(e)
    requires key == QueryBoard(NAMES_SYNCED, e, q, w)
    requires key in db.zsets && |db.zsets[key]| > 0 && forall m :: m in db.zsets[key] ==> db.zsets[key][m] >= 0
    ensures ValidatorsAnswer(db, NAMES_SYNCED, q, w, n, inclusion) == Answer(db, Ok(RevRangeByScore(db.zsets[key], 0, n)))
    ensures |RevRangeByScore(db.zsets[key], 0, n)| > 0
  {
    var z := db.zsets[key];
    var m :| m in z;
    ExistingBoardReused(db, NAMES_SYNCED, q, w, n, inclusion);
  }

  /** The names read for all and for active validators are not names the synchroniser
      writes a board under, so those boards never exist at the keys read. */
  lemma AsWrittenNamesNotSynced(e: EraIndex, e': EraIndex, name: string)
    requires name in {BOARD_ALL_VALIDATORS, BOARD_ACTIVE_VALIDATORS, BOARD_OWN_STAKE_VALIDATORS,
      BOARD_TOTAL_STAKE_VALIDATORS, BOARD_JUDGEMENTS_VALIDATORS, BOARD_SUB_ACCOUNTS_VALIDATORS,
      BOARD_POINTS_VALIDATORS, BOARD_TOTAL_POINTS_ERAS, BOARD_MAX_POINTS_ERAS, BOARD_MIN_POINTS_ERAS}
    ensures Render(Key.BoardAtEra(e, NAMES_AS_WRITTEN.all)) != Render(Key.BoardAtEra(e', name))
    ensures Render(Key.BoardAtEra(e, NAMES_AS_WRITTEN.active)) != Render(Key.BoardAtEra(e', name))
  {
    if Render(Key.BoardAtEra(e, NAMES_AS_WRITTEN.all)) == Render(Key.BoardAtEra(e', name)) {
      RenderInjective(Key.BoardAtEra(e, NAMES_AS_WRITTEN.all), Key.BoardAtEra(e', name));
    }
    if Render(Key.BoardAtEra(e, NAMES_AS_WRITTEN.active)) == Render(Key.BoardAtEra(e', name)) {
      RenderInjective(Key.BoardAtEra(e, NAMES_AS_WRITTEN.active), Key.BoardAtEra(e', name));
    }
  }

  /** As written, `get_validators` answers nothing: when no board of all validators exists
      under the name "all" (the synchroniser writes it as "all:val") and the board
      asked for does not exist, the board generated from it is empty and so is the answer,
      for every query. */
  lemma AsWrittenAnswersNothing(db: Db, q: Query, w: seq<nat>, n: nat, inclusion: string -> u32)
    requires ActiveEraOf(db).Some?
    requires Render(Key.BoardAtEra(ActiveEraOf(db).value, NAMES_AS_WRITTEN.all)) !in db.zsets
    requires !Exists(db, QueryBoard(NAMES_AS_WRITTEN, ActiveEraOf(db).value, q, w))
    ensures ValidatorsAnswer(db, NAMES_AS_WRITTEN, q, w, n, inclusion) == Answer(db, Ok([]))
  {
    var e := ActiveEraOf(db).value;
    var key := QueryBoard(NAMES_AS_WRITTEN, e, q, w);
    assert Ascending(ZSetAt(db, Render(Key.BoardAtEra(e, NAMES_AS_WRITTEN.all)))) == [];
  }
}
