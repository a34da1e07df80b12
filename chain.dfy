/** What the synchroniser reads from the node, as one snapshot: the staking,
    session and identity storage items it queries, and the network's properties. A storage
    map queried with a default (`ValueQuery`) reads as that default for a missing entry;
    an optional one (`OptionQuery`) reads as no entry. Also here: the pure logic the synchroniser
    runs over that snapshot (identity names, the controller's stake) and the text of the
    members it stores per validator and era. */
module ChainData {
  import opened Common
  import opened Text
  import opened Keys
  import opened Store

  /** A registrar's judgement of an identity. */
  datatype Judgement = Unknown | FeePaid(fee: nat) | Reasonable | KnownGood | OutOfDate | LowQuality | Erroneous

  /** An identity registration: the registrars' judgements and the display field. */
  datatype Registration = Registration(judgements: seq<Judgement>, display: IdentityData)

  /** `ValidatorPrefs`: commission in parts per billion (`Perbill`) and the blocked flag. */
  datatype Prefs = Prefs(commission: nat, blocked: bool)

  /** `Exposure`: the total and own stake behind a validator in an era, and the value of
      each nominator's share (`others`). */
  datatype Exposure = Exposure(total: nat, own: nat, others: seq<nat>)

  /** `EraRewardPoints`: the era's total and the points of each validator that earned any. */
  datatype EraPoints = EraPoints(total: nat, individual: seq<(string, nat)>)

  datatype Properties = Properties(tokenSymbol: string, tokenDecimals: nat, ss58Format: nat)

  /** The node's answers. `validators` and `nominators` are the entries the storage
      iterators yield, stash first; `bonded` maps a stash to its controller, `ledger` a
      controller to its active stake, `stakedPayees` are the stashes whose reward
      destination is `Staked`; `superOf` maps a sub-account to its parent and its name
      there; `subsOf` gives the number of sub-accounts. `nodeUrl` is the value of the
      SUBSTRATE_WS_URL environment variable ("" when unset). */
  datatype Chain = Chain(
    chainName: string,
    properties: Properties,
    nodeUrl: string,
    activeEra: Option<EraIndex>,
    historyDepth: u32,
    validators: seq<(string, Prefs)>,
    bonded: map<string, string>,
    ledger: map<string, nat>,
    stakedPayees: set<string>,
    identityOf: map<string, Registration>,
    superOf: map<string, (string, IdentityData)>,
    subsOf: map<string, nat>,
    nominators: seq<(string, seq<string>)>,
    sessionValidators: seq<string>,
    erasValidatorReward: map<EraIndex, nat>,
    erasTotalStake: map<EraIndex, nat>,
    erasRewardPoints: map<EraIndex, EraPoints>,
    erasValidatorPrefs: map<(EraIndex, string), Prefs>,
    erasStakers: map<(EraIndex, string), Exposure>,
    erasStakersClipped: map<(EraIndex, string), Exposure>)

  /** `get_controller_stake`: the active stake in the controller's ledger, 0 without one. */
  function ControllerStake(chain: Chain, controller: string): (stake: nat)
    ensures controller !in chain.ledger ==> stake == 0
    ensures controller in chain.ledger ==> stake == chain.ledger[controller]
  {
    if controller in chain.ledger then chain.ledger[controller] else 0
  }

  /** Whether the stash's rewards are paid as more stake (`RewardDestination::Staked`, also the
      storage default). */
  predicate RewardStaked(chain: Chain, stash: string) {
    stash in chain.stakedPayees
  }

  /** The storage items read per era, with their defaults. */
  function EraReward(chain: Chain, era: EraIndex): nat {
    if era in chain.erasValidatorReward then chain.erasValidatorReward[era] else 0
  }

  function EraTotalStake(chain: Chain, era: EraIndex): nat {
    if era in chain.erasTotalStake then chain.erasTotalStake[era] else 0
  }

  function EraRewardPoints(chain: Chain, era: EraIndex): EraPoints {
    if era in chain.erasRewardPoints then chain.erasRewardPoints[era] else EraPoints(0, [])
  }

  function EraPrefs(chain: Chain, era: EraIndex, stash: string): Prefs {
    if (era, stash) in chain.erasValidatorPrefs then chain.erasValidatorPrefs[(era, stash)] else Prefs(0, false)
  }

  function EraStakers(chain: Chain, era: EraIndex, stash: string): Exposure {
    if (era, stash) in chain.erasStakers then chain.erasStakers[(era, stash)] else Exposure(0, 0, [])
  }

  function EraStakersClipped(chain: Chain, era: EraIndex, stash: string): Exposure {
    if (era, stash) in chain.erasStakersClipped then chain.erasStakersClipped[(era, stash)] else Exposure(0, 0, [])
  }

  // ---------------------------------------------------------------------------------
  // Identities

  predicate IsGood(j: Judgement) {
    j.Reasonable? || j.KnownGood?
  }

  /** The fold over the judgements that counts the `Reasonable` and `KnownGood` ones. */
  function GoodJudgements(js: seq<Judgement>): (n: nat)
    ensures n <= |js|
    ensures n == |js| <==> forall i :: 0 <= i < |js| ==> IsGood(js[i])
    ensures n == 0 <==> forall i :: 0 <= i < |js| ==> !IsGood(js[i])
  {
    if js == [] then 0
    else
      var init := js[..|js| - 1];
      assert forall i :: 0 <= i < |init| ==> init[i] == js[i];
      GoodJudgements(init) + (if IsGood(js[|js| - 1]) then 1 else 0)
  }

  /** The name an identity is shown under: its own display name, or "parent/child" when it
      is reached through a sub-account named `child`. */
  function DisplayName(parent: string, sub: Option<string>): string {
    match sub
    case Some(child) => parent + "/" + child
    case None => parent
  }

  /** The three identity fields of a validator's hash. */
  function IdentityFields(name: string, judgements: nat, subs: nat): (data: Hash)
    ensures data.Keys == {"name", "judgements", "sub_accounts"}
    ensures data["name"] == name && data["judgements"] == NatToString(judgements)
    ensures data["sub_accounts"] == NatToString(subs)
  {
    map["name" := name, "judgements" := NatToString(judgements), "sub_accounts" := NatToString(subs)]
  }

  /** `get_identity`: an account with an identity gives its name, its number of good
      judgements and its number of sub-accounts. An account without one that is a
      sub-account is resolved through its parent, under its own name as a sub-account; an
      account with neither gives an empty name and zero counts. Each hop removes the account
      from the parent map, so a cycle of parents ends as an account with neither. */
  function GetIdentity(chain: Chain, stash: string, sub: Option<string>): (data: Hash)
    ensures data.Keys == {"name", "judgements", "sub_accounts"}
    ensures stash in chain.identityOf ==>
      data["name"] == DisplayName(ParseIdentityData(chain.identityOf[stash].display), sub) &&
      data["judgements"] == NatToString(GoodJudgements(chain.identityOf[stash].judgements)) &&
      data["sub_accounts"] == NatToString(if stash in chain.subsOf then chain.subsOf[stash] else 0)
    ensures stash !in chain.identityOf && stash !in chain.superOf ==>
      data == map["name" := "", "judgements" := "0", "sub_accounts" := "0"]
    decreases chain.superOf.Keys
  {
    if stash in chain.identityOf then
      var identity := chain.identityOf[stash];
      IdentityFields(DisplayName(ParseIdentityData(identity.display), sub), GoodJudgements(identity.judgements),
        if stash in chain.subsOf then chain.subsOf[stash] else 0)
    else if stash in chain.superOf then
      var (parent, name) := chain.superOf[stash];
      var rest := chain.(superOf := chain.superOf - {stash});
      assert rest.superOf.Keys < chain.superOf.Keys;
      GetIdentity(rest, parent, Some(ParseIdentityData(name)))
    else
      map["name" := "", "judgements" := "0", "sub_accounts" := "0"]
  }

  /** A sub-account without an identity of its own is shown under "parent/child": its
      parent's display name, then its own name as a sub-account, and with its parent's
      judgements and sub-account count. */
  lemma SubAccountIdentity(chain: Chain, stash: string)
    requires stash !in chain.identityOf && stash in chain.superOf
    requires chain.superOf[stash].0 in chain.identityOf
    ensures var parent := chain.superOf[stash].0;
      GetIdentity(chain, stash, None)["name"] ==
        ParseIdentityData(chain.identityOf[parent].display) + "/" + ParseIdentityData(chain.superOf[stash].1) &&
      GetIdentity(chain, stash, None)["judgements"] == NatToString(GoodJudgements(chain.identityOf[parent].judgements))
  {
    var (parent, name) := chain.superOf[stash];
    var rest := chain.(superOf := chain.superOf - {stash});
    assert GetIdentity(chain, stash, None) == GetIdentity(rest, parent, Some(ParseIdentityData(name)));
  }

  /** Only the last hop's sub-account name survives: an account two hops below an identity
      is named after its parent's name under the identity, not its own. */
  lemma TwoHopIdentity(chain: Chain, stash: string)
    requires stash !in chain.identityOf && stash in chain.superOf
    requires var parent := chain.superOf[stash].0;
      parent != stash && parent !in chain.identityOf && parent in chain.superOf &&
      chain.superOf[parent].0 in chain.identityOf
    ensures var parent := chain.superOf[stash].0;
      var top := chain.superOf[parent].0;
      GetIdentity(chain, stash, None)["name"] ==
        ParseIdentityData(chain.identityOf[top].display) + "/" + ParseIdentityData(chain.superOf[parent].1)
  {
    var (parent, name) := chain.superOf[stash];
    var rest := chain.(superOf := chain.superOf - {stash});
    assert GetIdentity(chain, stash, None) == GetIdentity(rest, parent, Some(ParseIdentityData(name)));
    assert rest.superOf[parent] == chain.superOf[parent];
    var rest' := rest.(superOf := rest.superOf - {parent});
    assert GetIdentity(rest, parent, Some(ParseIdentityData(name))) ==
      GetIdentity(rest', chain.superOf[parent].0, Some(ParseIdentityData(chain.superOf[parent].1)));
  }

  // ---------------------------------------------------------------------------------
  // The members of a validator's active-eras sorted set

  /** The member stored for a validator in an era: `format!("{}:{}", era_index, points)`. */
  function MemberText(era: EraIndex, points: nat): string {
    NatToString(era) + ":" + NatToString(points)
  }

  const UNWRAP_NONE := "called `Option::unwrap()` on a `None` value"
  const UNWRAP_ERR := "called `Result::unwrap()` on an `Err` value"

  /** The closure of `calculate_avg_reward_points`: the text after the first ':' parsed as a
      `u32`, each step unwrapped (a panic when the member has no ':' or the rest is not a
      number). */
  function ParseMember(x: string): (r: Result<nat, string>)
    ensures r.Ok? ==> r.value < U32_BOUND
    ensures ':' !in x ==> r == Err(UNWRAP_NONE)
  {
    match FindChar(x, ':')
    case None => Err(UNWRAP_NONE)
    case Some(i) =>
      match ParseUnsigned(x[i + 1..], U32_BOUND)
      case None => Err(UNWRAP_ERR)
      case Some(p) => Ok(p)
  }

  /** Encoding then parsing a member gives the points back. */
  lemma ParseMemberText(era: EraIndex, points: nat)
    requires points < U32_BOUND
    ensures ParseMember(MemberText(era, points)) == Ok(points)
  {
    EraTextHasNoColon(era);
    var t := NatToString(era);
    FindCharAfterPrefix(t, ':', NatToString(points));
    assert MemberText(era, points)[|t| + 1..] == NatToString(points);
    ParseNatToString(points, U32_BOUND);
  }

  /** Points past the `u32` range cannot be read back: the parse's unwrap panics. */
  lemma ParseMemberOverflow(era: EraIndex, points: nat)
    requires points >= U32_BOUND
    ensures ParseMember(MemberText(era, points)) == Err(UNWRAP_ERR)
  {
    EraTextHasNoColon(era);
    var t := NatToString(era);
    FindCharAfterPrefix(t, ':', NatToString(points));
    assert MemberText(era, points)[|t| + 1..] == NatToString(points);
    ParseNatToStringOverflow(points, U32_BOUND);
  }

  /** The members of distinct (era, points) pairs are distinct, so a sorted set of them holds
      one member per pair. */
  lemma MemberTextInjective(e1: EraIndex, p1: nat, e2: EraIndex, p2: nat)
    requires MemberText(e1, p1) == MemberText(e2, p2)
    ensures e1 == e2 && p1 == p2
  {
    EraTextHasNoColon(e1);
    EraTextHasNoColon(e2);
    var t1, t2 := NatToString(e1), NatToString(e2);
    FindCharAfterPrefix(t1, ':', NatToString(p1));
    FindCharAfterPrefix(t2, ':', NatToString(p2));
    assert |t1| == |t2|;
    assert MemberText(e1, p1)[..|t1|] == t1 && MemberText(e2, p2)[..|t2|] == t2;
    NatToStringInjective(e1, e2);
    assert MemberText(e1, p1)[|t1| + 1..] == NatToString(p1);
    assert MemberText(e2, p2)[|t2| + 1..] == NatToString(p2);
    NatToStringInjective(p1, p2);
  }
}
