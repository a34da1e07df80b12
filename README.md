# turboflakes-backend in Dafny

turboflakes-backend keeps staking data of a Substrate chain (Polkadot, Kusama) in Redis and serves it over HTTP.
This project models the core of that service over an abstract Redis store. The store holds hashes, sorted sets and plain strings, and the chain's storage is passed in as data.

What is modelled:

- **The synchroniser** (`src/sync/sync.rs`):
  - the cache keys and their text;
  - the `syncing` flag of the info hash;
  - `history` and the era-payout handler with its subscription loop;
  - `validators`, `nominators` and `active_validators`;
  - `eras_history` and `eras_reward_points`;
  - the identity lookup by parent account;
  - the `"era:points"` members of a validator's active-eras set and the average computed from them.
- **The integer statistics over reward points** (`src/sync/stats.rs`), including the in-place sort of `median`.
- **The HTTP handlers:**
  - the validator endpoints, leaderboards and weighted score (`src/handlers/validator.rs`);
  - era statistics (`src/handlers/era.rs`);
  - chain and cache information (`src/handlers/info.rs`).
- **The error types and how they map to HTTP answers** (`src/errors.rs`).

Modules and files:

| module | file | content |
|---|---|---|
| `Common` | common.dfy | `Option`, `Result`, the panic/error `Fault`, integer bounds |
| `Text` | text.dfy | decimal text of numbers, parsing, `split`/`join`, Redis glob matching |
| `Errors` | errors.dfy | `ApiError`, `CacheError`, `SyncError`, error answers |
| `Keys` | keys.dfy | `Key` and its `Display`, account ids from storage keys, identity data |
| `Store` | store.dfy | the store as a value (`Db`); a `Cache` class whose methods are the Redis commands used; the sorted-set order |
| `Stats` | stats.dfy | `mean`, `median`, `min`, `max` |
| `ChainData` | chain.dfy | the chain storage the synchroniser reads; identities; the member encoding |
| `Fields` | fields.dfy | parse-or-default reading of hash fields, shared by the handlers |
| `Sync` | sync.dfy | status flag, `network`, `active_era`, `validators` |
| `SyncNominators` | nominators.dfy | `nominators` |
| `SyncActive` | active.dfy | `active_validators` |
| `SyncEras` | eras.dfy | `eras_history`, `eras_reward_points`, exposures |
| `SyncEvents` | events.dfy | `history` and the era-payout subscription |
| `EraHandler`, `InfoHandler`, `ValidatorHandler` | era.dfy, info.dfy, validator.dfy | the endpoints |
| `Consistency` | consistency.dfy | what the synchroniser writes is what the endpoints read back |

Each step of the synchroniser has two parts:

- a method over a `Cache` object, with the step's own loops and store commands;
- a function on `Db` that returns `Outcome(db, fault)`.

The method's contract ties its final state and its error to that function. Lemmas about the functions state what the step achieves.

Some errors are modelled as values:

- a debug-build overflow panic or an `unwrap` panic is `Fault.Panicked(message)`;
- an error returned with `?` is `Fault.Raised(error)`.

An unknown era or stash is never answered "not found": the handlers insert the requested index or stash into the map before they test it for emptiness. The model follows the code here. The validator endpoints first parse the requested address. An address that does not parse is answered with the parse's error. A valid one is looked up and answered in the chain's SS58 format. The parse is a parameter (`ValidatorHandler.AddressParser`).

## Model

| member | source | states |
|---|---|---|
| Keys.ParseKeyRender | src/sync/sync.rs:128-147 | Every key's text splits on `:` and parses back to that key, so the `Display` patterns (`{era}:era`, `{era}:era:{stash}:val`, `{era}:era:{name}:board`, `{stash}:val`, `{stash}:val:eras:active`, …) can be told apart |
| Keys.RenderInjective | src/sync/sync.rs:128-147 | Distinct well-formed keys render to distinct strings |
| Keys.ScanPatternMatches | src/sync/sync.rs:140 | The scan pattern `*:era:{stash}:val` matches a key's text exactly when the key is a per-era key of that same stash |
| Keys.ValidatorAtEraPrefix | src/handlers/validator.rs:276-278 | In a per-era key of a validator, the text before the first `:` is the era's decimal text |
| Keys.AccountIdFromStorageKey | src/sync/sync.rs:108-112 | For a storage key of at least 32 bytes, the account id is exactly its last 32 bytes |
| Keys.AccountIdRoundTrip | src/sync/sync.rs:108-112 | Extracting the account id from any prefix followed by a 32-byte account gives back that account |
| Keys.ParseIdentityData | src/sync/sync.rs:1248-1285 | Raw identity data yields its text; any other kind of data yields `???` |
| Text.ParseNatToString | src/handlers/era.rs:43-84 | A number below the bound, written as decimal text, reads back as itself. This is how every typed field read by the handlers recovers what the synchroniser wrote |
| Text.ParseRejectsPoint | src/handlers/era.rs:77-81 | Text with a decimal point never parses as an unsigned integer |
| Stats.Mean | src/sync/stats.rs:23-29 | The mean is 0 for an empty list; otherwise mean × length equals the sum. The precondition requires that the `u32` sum does not overflow |
| Stats.TestMean | src/sync/stats.rs:93-96 | The mean of [1,2,3,4,5,4,2,6] is 3.375 |
| Stats.Min | src/sync/stats.rs:56-61 | The minimum is 0 for an empty list; otherwise it is an element that is at most every element |
| Stats.Max | src/sync/stats.rs:63-68 | The maximum is 0 for an empty list; otherwise it is an element that is at least every element |
| Stats.TestMinMax | src/sync/stats.rs:110-120 | The minimum and maximum of any arrangement of [1,2,3,4,5,4,2,6] are 1 and 6 |
| Stats.SortInPlace | src/sync/stats.rs:51 | After the in-place sort the array is ascending and is a permutation of what it held |
| Stats.Median | src/sync/stats.rs:47-54 | Sorts the array in place (ascending, a permutation) and returns the element at index len/2 of the sorted list, or 0 for an empty list |
| Stats.MedianOfSorted | src/sync/stats.rs:47-54 | The median of a list is the element at index len/2 of any ascending permutation of it |
| Stats.TestMedian | src/sync/stats.rs:105-108 | The median of any arrangement of [1,2,3,4,5,4,2,6] is 4 |
| Stats.SortSeq | src/sync/stats.rs:51 | Reference sort: ascending and a permutation of its input |
| Stats.SortedUnique | src/sync/stats.rs:51 | Two ascending permutations of the same list are equal, so the median does not depend on how the sort is done |
| Stats.MedianBetweenMinAndMax | src/sync/stats.rs:47-68 | The median of a non-empty list is one of its elements and lies between its minimum and maximum |
| Stats.MeanBetweenMinAndMax | src/sync/stats.rs:23-29 | The mean of a non-empty list lies between its minimum and maximum |
| Stats.MeanText | src/sync/sync.rs:1065-1073 | The `f64` text of the mean is "0" for an empty list and the integer text of sum/len when the division is exact; it contains a `.` exactly when the division is not exact |
| Stats.MeanTextExact | src/sync/sync.rs:1065-1073 | When that text has no `.`, it is the integer quotient, which equals the real mean |
| Errors.ErrorAnswer | src/errors.rs:36-51 | BadRequest answers 400, NotFound 404 and InternalServerError 500. The body's single error is the variant's message |
| Errors.ErrorResponseFrom | src/errors.rs:59-66 | An error response built from a message holds exactly that one message |
| Errors.CacheToApiError | src/errors.rs:85-97 | Every cache error becomes an internal server error carrying the cache error's text, and is answered with 500 |
| Errors.CacheErrorAnswer | src/errors.rs:69-97 | A cache error's answer is 500 with its text, and different cache errors give different answers |
| Errors.ParseCacheErrorTextRoundTrip | src/errors.rs:69-90 | A cache error can be recovered from its text, because each variant has its own fixed prefix |
| Errors.PongErrorText | src/errors.rs:69-90 | The pong error's text is "pong response error" |
| Errors.CacheToSyncError | src/errors.rs:100-107 | A cache error lifts into the synchronisation error's cache variant, keeping the cause |
| Fields.NumberField | src/handlers/info.rs:94-113 | A numeric field reads as its value when it parses below the type's bound, otherwise as 0 |
| Fields.FlagField | src/handlers/info.rs:89-93 | A flag field is true exactly when it is present and equal to "true" |
| Fields.TextField | src/handlers/info.rs:49-74 | A text field reads as its value, or the given default when missing |
| ChainData.ControllerStake | src/sync/sync.rs:755-768 | A controller's stake is the ledger's active stake, or 0 without a ledger |
| ChainData.GoodJudgements | src/sync/sync.rs:714-724 | The judgements count only Reasonable and KnownGood entries. It is the full length exactly when all are good, and 0 exactly when none is |
| ChainData.GetIdentity | src/sync/sync.rs:696-753 | With an identity: its display name, good-judgement count and sub-account count. With neither an identity nor a parent: name "", judgements "0" and sub_accounts "0" |
| ChainData.SubAccountIdentity | src/sync/sync.rs:734-749 | A sub-account whose parent has an identity is named `parent/child` and carries the parent's judgements |
| ChainData.TwoHopIdentity | src/sync/sync.rs:734-749 | A sub-account of a sub-account is named after the identity two levels up |
| ChainData.ParseMemberText | src/sync/sync.rs:822-829 | The member `"era:points"` written for an era parses back to its points, for points below 2^32 |
| ChainData.ParseMemberOverflow | src/sync/sync.rs:822-829 | Points of 2^32 or more make the parse of the member panic |
| ChainData.MemberTextInjective | src/sync/sync.rs:1038-1045 | Different (era, points) pairs give different members |
| ChainData.ParseMember | src/sync/sync.rs:822-829 | A member without `:` panics on the `unwrap` of the missing separator; a parsed value fits in `u32` |
| Sync.StatusFields | src/sync/sync.rs:388-421 | `Started` writes syncing="true" and the start time; `Finished` writes syncing="false" and the finish time |
| Sync.SetStatus | src/sync/sync.rs:388-421 | The info hash is merged with exactly those fields |
| Sync.Syncing | src/sync/sync.rs:423-441 | The flag is up exactly when the info hash's syncing field is "true"; a missing or other value reads as false |
| Sync.IsSyncing | src/sync/sync.rs:423-441 | Returns the flag of the current state |
| Sync.StatusSetsFlag | src/sync/sync.rs:388-441 | After a status write the flag is up exactly when the status was `Started` |
| Sync.NetworkFields | src/sync/sync.rs:322-360 | The network hash holds exactly the chain name, token symbol, decimals, ss58 format and node URL |
| Sync.Network | src/sync/sync.rs:322-360 | The network hash is merged with those fields |
| Sync.ActiveEra | src/sync/sync.rs:363-385 | Without an active era the step answers its error and writes nothing; otherwise it stores the era's text under `era:active` and returns the era |
| Sync.CalculateAvgRewardPoints | src/sync/sync.rs:797-834 | The answer is the `f64` text of the mean points of the active-eras members whose era lies in [lo, hi). A malformed member or a `u32` overflow of the sum panics |
| Sync.MembersPointsParsed | src/sync/sync.rs:811-829 | The members convert exactly when every member parses, and then to each member's points in order |
| Sync.ValidatorData | src/sync/sync.rs:463-532 | A validator's record is written inactive, with nominators and nominators_stake reset to "0", own_stake set to the controller's stake |
| Sync.ValidatorDataAverage | src/sync/sync.rs:505-516 | The record stores the average points under "avg_reward_points", and no field is named "mean_reward_points" |
| Sync.SyncValidator | src/sync/sync.rs:463-579 | One stash of the loop: skipped without a controller; otherwise the own-stake entry, the era range, the average, then the record and the boards. The method's state and error equal the step function's |
| Sync.Validators | src/sync/sync.rs:444-598 | The whole `validators` step, loop and final count, equals its reference function `ValidatorsStep` |
| Sync.ValidatorsCount | src/sync/sync.rs:581-590 | After a successful run the info hash's validators count is the number of stashes that have a controller |
| Sync.ValidatorsReset | src/sync/sync.rs:522-524 | After a successful run every stash with a controller has active="false", nominators="0" and nominators_stake="0" |
| Sync.ValidatorsBoards | src/sync/sync.rs:474-484 | Own-stake board: gains exactly the stashes that are bonded with nonzero stake. All-validators board of the era: gains exactly the bonded stashes |
| Sync.ValidatorsUnderflow | src/sync/sync.rs:499-509 | When the history depth exceeds the active era and some stash is bonded, the `u32` subtraction panics |
| Sync.ValidatorsKeepsFlag | src/sync/sync.rs:444-598 | `validators` leaves the syncing flag as it found it |
| Sync.BondedCount | src/sync/sync.rs:581 | Never more than the number of validators iterated |
| Sync.RunPassesCount | src/sync/sync.rs:463-581 | Induction over the loop: the count written is the count so far plus the bonded stashes still to come |
| SyncActive.ActiveValidators | src/sync/sync.rs:837-879 | The `active_validators` step equals its reference function |
| SyncActive.RunActiveField | src/sync/sync.rs:850-857 | After marking, a field of a validator's record is "true" when it is `active` of a session validator, and unchanged otherwise |
| SyncActive.RunActiveBoard | src/sync/sync.rs:859-866 | The era's active board gains exactly the session validators |
| SyncActive.ActiveValidatorsKeepsFlag | src/sync/sync.rs:837-879 | The step leaves the syncing flag as it found it |
| SyncNominators.NominateTarget | src/sync/sync.rs:616-679 | One nominated validator equals its reference function: skipped without a record, otherwise the count raised, the stake added and the board updated |
| SyncNominators.Nominators | src/sync/sync.rs:601-693 | The whole `nominators` step equals its reference function |
| SyncNominators.IncrementTally | src/sync/sync.rs:630-636 | `HINCRBY` succeeds exactly when the count is below the `i64` limit. It then raises the count by one and leaves the stake alone |
| SyncNominators.NominatorsTally | src/sync/sync.rs:601-693 | Starting from reset counters, each validator ends with as many nominators as nominations naming it by a bonded nominator, and their stakes summed. The info count is every nominator, with a controller or without |
| SyncNominators.RunNominatorsCount | src/sync/sync.rs:682-690 | The count written is every nominator iterated |
| SyncNominators.NominateOther | src/sync/sync.rs:616-679 | Nominating one validator leaves every other validator's record unchanged |
| SyncNominators.NominateRanks | src/sync/sync.rs:659-679 | The total-stake board holds own plus nominated stake when that total is nonzero, and is untouched when it is zero |
| SyncNominators.NominateStakeOverflow | src/sync/sync.rs:650 | A nominated stake reaching 2^128 panics on the `u128` addition |
| SyncNominators.NominateCountOverflow | src/sync/sync.rs:630-636 | A count at the `i64` limit makes `HINCRBY` fail, and nothing is written |
| SyncNominators.StakeField | src/sync/sync.rs:640-649 | A stake field reads as a `u128`, 0 when missing or malformed |
| SyncNominators.RunNominatorsKeepsFlag | src/sync/sync.rs:601-693 | The step leaves the syncing flag as it found it |
| SyncEras.OthersStake | src/sync/sync.rs:1145-1173 | The loop's sum of the other stakers' shares equals the reference sum, panicking when it overflows `u128` |
| SyncEras.SetErasValidatorStakers | src/sync/sync.rs:1145-1173 | The exposure fields equal the reference function `StakersFields` |
| SyncEras.SetErasValidatorStakersClipped | src/sync/sync.rs:1176-1205 | The clipped exposure fields equal the reference function `ClippedFields` |
| SyncEras.EraValidatorDataOk | src/sync/sync.rs:1017-1036 | A validator's era record can be built exactly when both stake sums fit `u128`; otherwise the build panics with the addition-overflow message |
| SyncEras.EraValidatorDataRecord | src/sync/sync.rs:1017-1036 | The record holds active="true", the points, the commission, the others' stake and the stakers count, both clipped and unclipped |
| SyncEras.SyncEraValidators | src/sync/sync.rs:1016-1062 | The loop over the era's validators equals its reference function |
| SyncEras.ErasRewardPoints | src/sync/sync.rs:1001-1114 | The whole `eras_reward_points` step equals its reference function |
| SyncEras.EraPointsFault | src/sync/sync.rs:1001-1114 | The step succeeds exactly when every validator's stake sums fit and the points sum fits `u32`. Its only failure is the addition-overflow panic |
| SyncEras.EraPointsMembers | src/sync/sync.rs:1038-1045 | Each validator's active-eras set holds the member `"era:points"` with score `era`, and that member parses back to the points |
| SyncEras.EraPointsStats | src/sync/sync.rs:1065-1080 | The era hash holds the statistics computed from the points, and every other field is unchanged |
| SyncEras.EraPointsStepKeepsTotals | src/sync/sync.rs:1065-1080 | The statistics leave total_reward and total_stake untouched |
| SyncEras.ErasHistory | src/sync/sync.rs:902-942 | The `eras_history` step, with its recursion on an unsynced era, equals its reference function |
| SyncEras.SkipWhenSynced | src/sync/sync.rs:929-938 | Without force, an era that already has `synced_at` is left unchanged |
| SyncEras.SyncWhenUnsynced | src/sync/sync.rs:929-941 | Without `synced_at`, the step behaves as when forced |
| SyncEras.SecondSyncSkipped | src/sync/sync.rs:913-941 | A forced sync sets `synced_at`, so a later unforced sync of that era changes nothing |
| SyncEras.ForcedSyncTotals | src/sync/sync.rs:913-926 | A successful forced sync stores the era's total reward and total stake |
| SyncEras.ErasHistoryKeepsInfo | src/sync/sync.rs:902-942 | The step leaves the info hash unchanged |
| SyncEvents.History | src/sync/sync.rs:219-240 | `history` equals status `Started`, then the network hash, then status `Finished` |
| SyncEvents.HistoryResult | src/sync/sync.rs:219-240 | After `history` the flag is down, the network hash names the chain and its node, and the finish time is recorded |
| SyncEvents.HandlePayout | src/sync/sync.rs:256-268 | One decoded era-payout event equals its reference function `PayoutStep` |
| SyncEvents.RunPayoutSteps | src/sync/sync.rs:262-267 | The handler's step sequence (active era, forced era history, validators, active validators, nominators) equals `PayoutSteps`, stopping at the first error |
| SyncEvents.SubscribeEraPayouts | src/sync/sync.rs:242-278 | The subscription loop equals `RunPayouts`: undecoded events are skipped, and the first error ends the loop |
| SyncEvents.SkipWhileSyncing | src/sync/sync.rs:256-259 | While the flag is up, an event is skipped with no writes |
| SyncEvents.PayoutStepsKeepFlag | src/sync/sync.rs:262-267 | None of the steps between the two status writes touches the flag |
| SyncEvents.PayoutLowersFlag | src/sync/sync.rs:260-268 | A successful event ends with the flag down and the finish time recorded |
| SyncEvents.FailedPayoutKeepsFlag | src/sync/sync.rs:260-268 | A failed event leaves the flag up |
| SyncEvents.NoActiveEraBlocks | src/sync/sync.rs:261-262 | Without an active era the event fails with that error and the flag stays up |
| SyncEvents.FailedPayoutBlocksLater | src/sync/sync.rs:256-268 | After a failed event, every later run of the subscription changes nothing |
| SyncEvents.SkippedWhileSyncing | src/sync/sync.rs:250-273 | While the flag is up, any sequence of events is a no-op |
| SyncEvents.ReleasingLowersFlag | src/sync/sync.rs:260-268 | The corrected handler always ends with the flag down. Where the handler as written succeeds, the two are equal |
| SyncEvents.ReleasingAllowsNext | src/sync/sync.rs:256-268 | After the corrected handler, the next event is handled normally |
| EraHandler.EraFromCache | src/handlers/era.rs:43-85 | Every numeric field decodes into its type's range, with 0 for a missing or malformed value |
| EraHandler.EraKeyIsEraKey | src/handlers/era.rs:92 | The key `get_era` builds is the text of `Key::Era` and parses back to it |
| EraHandler.GetEra | src/handlers/era.rs:87-106 | `get_era` always answers, with the requested era index |
| EraHandler.GetEraUncached | src/handlers/era.rs:99-103 | An era that is not cached is answered with zero totals rather than not found |
| EraHandler.FractionalAverageReadsZero | src/handlers/era.rs:77-81 | A stored average with a fractional part decodes to 0 |
| InfoHandler.ChainDetailsFrom | src/handlers/info.rs:49-74 | Decimals and ss58 format decode below 256; a missing name decodes to "" |
| InfoHandler.ByteFieldsDefault | src/handlers/info.rs:58-67 | Decimals above 255 and a non-numeric ss58 format both decode to 0 |
| InfoHandler.CacheInfoFrom | src/handlers/info.rs:85-117 | syncing is true exactly when the stored value is "true"; the timestamps and counts decode below 2^32 |
| InfoHandler.GetInfo | src/handlers/info.rs:119-141 | The answer carries the package name and version, the API path "/api/v1", and syncing exactly when the info hash says "true" |
| InfoHandler.NothingCached | src/handlers/info.rs:119-141 | With nothing cached the answer has empty texts, zeros and syncing false |
| ValidatorHandler.DecodeValidator | src/handlers/validator.rs:54-129 | Numeric fields decode into their types' ranges; blocked, active and reward_staked are true exactly when stored as "true" |
| ValidatorHandler.ValidatorFromCacheAsWritten | src/handlers/validator.rs:99-103 | The decoder as written gives a mean of "0" whenever "mean_reward_points" is absent |
| ValidatorHandler.ValidatorFromCache | src/handlers/validator.rs:54-129 | The corrected decoder answers the stored average points |
| ValidatorHandler.GetValidator | src/handlers/validator.rs:131-149 | An address that does not parse is answered with the parse's error. A valid one is always answered, never with not found: the answer is the as-written conversion of the cached hash with the canonical address as its stash |
| ValidatorHandler.GetValidatorCorrected | src/handlers/validator.rs:131-149 | The same endpoint with the corrected conversion, which reads the mean from "avg_reward_points" |
| ValidatorHandler.GetValidatorMean | src/handlers/validator.rs:99-103 | On a cached record that has "avg_reward_points" and no "mean_reward_points", as the synchroniser writes it, the endpoint answers a mean of "0"; the corrected one answers the stored average and agrees on every other field |
| ValidatorHandler.GetValidatorSameAccount | src/handlers/validator.rs:136-138 | Two texts of the same account, in any SS58 format, get the same answer |
| ValidatorHandler.GetValidatorUnknown | src/handlers/validator.rs:136-147 | A valid address whose record is not cached is answered with zeros, empty texts and false flags rather than not found |
| ValidatorHandler.ValidatorEraFromCache | src/handlers/validator.rs:172-234 | Numeric fields decode into their types' ranges; active is true exactly when stored as "true" |
| ValidatorHandler.ScanMatching | src/handlers/validator.rs:245-263 | The scan returns each key matching the pattern exactly once |
| ValidatorHandler.ReadEntries | src/handlers/validator.rs:265-280 | Either every found key is still cached and the entries are decoded in order, or the answer names a key that is gone |
| ValidatorHandler.GetValidatorEras | src/handlers/validator.rs:236-290 | An address that does not parse is answered with the parse's error. For a valid one, success: the eras are sorted by era index descending and are a permutation of the entries of exactly the stash's per-era keys. Failure: exactly when a matched key is no longer cached, answered as not found |
| ValidatorHandler.SortByEraDescending | src/handlers/validator.rs:284-285 | Reference sort: non-increasing era index, and a permutation |
| ValidatorHandler.WeightOf | src/handlers/validator.rs:344-350 | Gives 5 for a field that is not a `u32`, the value itself up to 10, and 10 above that |
| ValidatorHandler.ParseWeights | src/handlers/validator.rs:333-353 | There is one weight per comma-separated field, each at most 10 |
| ValidatorHandler.ParseWeightsEmpty | src/handlers/validator.rs:338-345 | The empty text gives the single weight 5 |
| ValidatorHandler.BoardNameIsJoin | src/handlers/validator.rs:360-371 | The board name is the weights' texts joined by `,`, with no leading or trailing comma |
| ValidatorHandler.ParseWeightsBoardName | src/handlers/validator.rs:333-371 | For a non-empty list of weights each at most 10, parsing the board name gives back the weights |
| ValidatorHandler.BoardNameInjective | src/handlers/validator.rs:360-371 | Different weight lists get different board names |
| ValidatorHandler.NormalizeCommission | src/handlers/validator.rs:378-380 | 100 − c/10_000_000 is defined exactly when it does not underflow (c < 1_010_000_000), and is at most 100 |
| ValidatorHandler.NormalizeCommissionRange | src/handlers/validator.rs:378-380 | Commissions up to 100% normalise, from 100 at 0% down to 0 at 100% |
| ValidatorHandler.NormalizeCommissionAntitone | src/handlers/validator.rs:378-380 | The normalisation does not increase as the commission grows |
| ValidatorHandler.Score | src/handlers/validator.rs:407-417 | The weighted score incl·w0 + comm·w1 + staked·w2·100 + active·w3·100 is answered exactly when there are at least 4 weights, the commission normalises and every `u32` step fits |
| ValidatorHandler.ScoreMonotoneInWeights | src/handlers/validator.rs:414-417 | The score does not decrease when any weight grows |
| ValidatorHandler.ScoreMonotoneInFlags | src/handlers/validator.rs:414-417 | The score does not decrease when reward_staked or active becomes true |
| ValidatorHandler.ScoreAntitoneInCommission | src/handlers/validator.rs:414-417 | The score does not increase as the commission grows |
| ValidatorHandler.RunBoard | src/handlers/validator.rs:398-436 | Without a panic, the board gains exactly the non-blocked validators of the list, each scored by its record, and nothing else changes. It panics exactly when some non-blocked validator's score fails |
| ValidatorHandler.GenerateBoard | src/handlers/validator.rs:382-440 | The board generation loop equals `RunBoard` over the era's all-validators board in sorted-set order |
| ValidatorHandler.GetValidators | src/handlers/validator.rs:442-485 | The handler's state and answer equal `ValidatorsAnswer` |
| ValidatorHandler.ValidatorsAnswer | src/handlers/validator.rs:442-485 | The handler writes only sorted sets and answers at most n stashes |
| ValidatorHandler.NoActiveEra | src/handlers/validator.rs:447-451 | Without a stored active era the handler fails with 500 and writes nothing |
| ValidatorHandler.ExistingBoardReused | src/handlers/validator.rs:459-468 | An existing board is reused unchanged and read in score order |
| ValidatorHandler.AnswerRanked | src/handlers/validator.rs:470-481 | The answer: at most n stashes of the board, in non-increasing score order. Any non-negative member left out means the answer is full and the member comes after the last one answered |
| ValidatorHandler.GeneratedBoardAnswer | src/handlers/validator.rs:459-467 | A generated board holds exactly the non-blocked validators of the all-validators board, scored by their records, and the answer is drawn from them |
| ValidatorHandler.AsWrittenNamesNotSynced | src/handlers/validator.rs:299-307 | As written, the "all" and "active" board keys differ from every board the synchroniser writes |
| ValidatorHandler.AsWrittenAnswersNothing | src/handlers/validator.rs:452-481 | As written, the "all" and "active" queries answer an empty list |
| ValidatorHandler.SyncedBoardAnswered | src/handlers/validator.rs:452-481 | With the board names the synchroniser writes ("all:val", "active:val"), a non-empty board is answered with its top stashes |
| Consistency.HistoryAnswered | src/handlers/info.rs:119-141 | After `history` the info endpoint answers the chain's details, the flag down and the finish time |
| Consistency.PayoutAnswered | src/sync/sync.rs:256-268 | After a handled event, the info endpoint reports syncing exactly when the handler failed |
| Consistency.ActiveEraAnswered | src/handlers/validator.rs:447-451 | The era stored by `active_era` is the one `get_validators` reads |
| Consistency.ValidatorsCountAnswered | src/handlers/info.rs:94-113 | The info endpoint answers the validators count that `validators` wrote |
| Consistency.NominatorsCountAnswered | src/handlers/info.rs:94-113 | The info endpoint answers the nominators count that `nominators` wrote |
| Consistency.EraStatsAnswered | src/handlers/era.rs:43-106 | After the era statistics are written, `get_era` answers the total points, the minimum, the maximum, and the average when it is a whole number (0 otherwise) |
| Consistency.MeanRewardPointsAnswered | src/handlers/validator.rs:99-103 | On the record `validators` writes, the decoder as written answers a mean of "0"; the corrected one answers the average |

## Left out

- Redis and node I/O is not modelled: connections, pools, retries, sleeps, spawning and restarting background jobs. Chain storage and the event stream are inputs.
- Concurrency is not modelled. The flag's check-then-set and the boards filled in place are treated sequentially.
- Redis errors are not modelled, except the `HINCRBY` failure on a non-integer field or an `i64` overflow. WRONGTYPE replies and the `SCAN` cursor are left out; a scan returns all matching keys at once.
- Sync.CalculateAvgRewardPoints: the `f64` division is modelled by its decimal text (`MeanText`), exact for whole quotients and only known to hold a `.` otherwise; the digits of a fraction are not claimed to match Rust's float printing.
- `calculate_inclusion_rate` and `normaliza_inclusion` use floats. They are parameters: the rate text comes from a function of (eras active, depth), and the inclusion percentage from a function of the record.
- ValidatorHandler.DecodeValidator: `inclusion_rate` and the mean reward points are `f32`/`f64` parsed with `unwrap_or_default`. The model answers the stored text ("0" when missing, via `Fields.TextField`). The rounding to a float is lost, and so is the 0.0 a text that is not a number reads as.
- Stats.Mean: the mean is the exact rational sum/len. The source's `f64` quotient is rounded, so "mean × length equals the sum" holds of the model and not always of the source's value.
- SyncNominators.NominateRanks: Redis keeps sorted-set scores as doubles, but `Store.ZAdd` keeps the exact integer. Totals above 2^53 are stored rounded by Redis and can tie or change order; the model's board score is the exact `u128` total. The same holds for the total-stake board written by `SyncNominators.RankTotalBoard` and the own-stake board written by `Sync.OwnStakeEntry` and stated in `Sync.ValidatorsBoards`. The leaderboard scores are `u32` and exact as doubles.
- ValidatorHandler.GetValidator, ValidatorHandler.GetValidatorEras: the SS58 codec is not modelled. The parse of the address and its rendering in the chain's format are the parameter `address`, which gives the canonical text or the error. errors.rs has no conversion from the codec's error into `ApiError`, so that error is part of the parameter.
- ValidatorHandler.RunBoard, ValidatorHandler.GenerateBoard, ValidatorHandler.ValidatorsAnswer, ValidatorHandler.GetValidators: `generate_board` parses each member of the all-validators board with `AccountId32::from_str(..)?` and re-renders it in canonical form for its `HGETALL` and `ZADD`. The model assumes the members are canonical addresses and uses them as they are, which the synchroniser's `stash.to_string()` members are. The error an invalid member would raise, and that `get_validators` passes on, is not modelled.
- `Utc::now()` is an input: one `now` per call.
- Raw events that fail to decode and subscription errors are both modelled as skipped events (`None`).
- `eras_history_depth`, `subscribe_new_session_events` and the standard-deviation and confidence-interval functions are not modelled, because the event handler never calls them.
- `parse_display_name` exists only to decode UTF-8, which is not modelled; names are given strings.
- `get_identity` would loop forever on a cycle of parent accounts. The model ends the recursion by dropping each visited account, so cycles are not modelled.
- The synchroniser's `u32` counter `i` is an unbounded count.
- Other debug-build overflow panics are modelled only where a lemma names them: the `u128` stake sums, the points sum, the era subtraction and the score.
- The order of a `BTreeMap` is not modelled; a hash is a map.
- In `eras_reward_points` the points vector is computed after the loop from the same items, in the same order (`PointsOf`).
- The `SubscriptionFinished` error is returned at the end of the subscription but is not a variant of `SyncError` in errors.rs. The model ends the loop without that error.
- Configuration, the cache pool set-up, `main` and the routes are not part of this model.

## Findings

| source | as written | input that shows it | evidently intended | confidence | as-written member | corrected member |
|---|---|---|---|---|---|---|
| src/handlers/validator.rs:99-103 | the validator decoder reads the mean from "mean_reward_points" | any validator record written by `validators`, which stores the average under "avg_reward_points" (src/sync/sync.rs:513-516) | read "avg_reward_points" | high; not executed | ValidatorHandler.ValidatorFromCacheAsWritten, ValidatorHandler.GetValidator, ValidatorHandler.GetValidatorMean, Consistency.MeanRewardPointsAnswered | ValidatorHandler.ValidatorFromCache, ValidatorHandler.GetValidatorCorrected |
| src/handlers/validator.rs:299-307 | the "all" and "active" queries look for boards named "all" and "active" | `q=all` after a full sync: the synchroniser writes "all:val" and "active:val" (src/sync/sync.rs:69-70), so the answer is empty | use the synchroniser's board names | high; not executed | ValidatorHandler.AsWrittenNamesNotSynced, ValidatorHandler.AsWrittenAnswersNothing | ValidatorHandler.SyncedBoardAnswered |
| src/sync/sync.rs:256-268 | a step that fails returns before status `Finished`, leaving syncing="true" | an era-paid event while the node reports no active era: `active_era` fails, and every later event is skipped | lower the flag even when a step fails | medium; not executed | SyncEvents.FailedPayoutBlocksLater, SyncEvents.NoActiveEraBlocks | SyncEvents.ReleasingLowersFlag, SyncEvents.ReleasingAllowsNext |
