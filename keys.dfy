/** The cache schema: every Redis key the synchroniser writes and the handlers read,
    the account id carried at the end of a chain storage key, and the display name held in
    an on-chain identity field.

    An account appears in keys and hash fields as its SS58 address text. SS58 text is
    base-58, so it holds neither ':' nor any glob metacharacter; `IsAddress` states that. */
module Keys {
  import opened Common
  import opened Text

  /** Era indices are 32-bit unsigned integers. */
  type EraIndex = u32

  /** The base-58 alphabet of SS58 addresses: digits 1-9 and the letters other than I, O and l. */
  predicate IsBase58(c: char) {
    ('1' <= c <= '9') || ('A' <= c <= 'Z' && c != 'I' && c != 'O') || ('a' <= c <= 'z' && c != 'l')
  }

  predicate IsAddress(s: string) {
    |s| > 0 && forall i :: 0 <= i < |s| ==> IsBase58(s[i])
  }

  lemma AddressIsPlain(s: string)
    requires IsAddress(s)
    ensures ':' !in s && Literal(s)
  {
    assert forall i :: 0 <= i < |s| ==> s[i] != ':' && s[i] !in "*?[\\";
  }

  /** Names of the sorted sets ("boards") the synchroniser maintains. */
  const BOARD_TOTAL_POINTS_ERAS := "total:points:era"
  const BOARD_MAX_POINTS_ERAS := "max:points:era"
  const BOARD_MIN_POINTS_ERAS := "min:points:era"
  const BOARD_ACTIVE_VALIDATORS := "active:val"
  const BOARD_ALL_VALIDATORS := "all:val"
  const BOARD_POINTS_VALIDATORS := "points:val"
  const BOARD_OWN_STAKE_VALIDATORS := "own:stake:val"
  const BOARD_TOTAL_STAKE_VALIDATORS := "total:stake:val"
  const BOARD_JUDGEMENTS_VALIDATORS := "judgements:val"
  const BOARD_SUB_ACCOUNTS_VALIDATORS := "sub:accounts:val"

  datatype Key =
    | Network
    | Info
    | Stats
    | ActiveEra
    | Era(era: EraIndex)
    | ValidatorAtEra(era: EraIndex, stash: string)
    | BoardAtEra(era: EraIndex, name: string)
    | ValidatorAtEraScan(stash: string)
    | Validator(stash: string)
    | ActiveErasByValidator(stash: string)

  /** The keys whose account part is an address (every key the source builds has one). */
  predicate WellFormed(k: Key) {
    k.ValidatorAtEra? || k.ValidatorAtEraScan? || k.Validator? || k.ActiveErasByValidator? ==> IsAddress(k.stash)
  }

  /** The text of a key (`Display for Key`): "network", "info", "stats", "era:active",
      "{era}:era", "{era}:era:{stash}:val", "*:era:{stash}:val", "{era}:era:{name}:board",
      "{stash}:val" and "{stash}:val:eras:active". Each ':' is written as a piece of its own. */
  function Render(k: Key): string {
    match k
    case Network => "network"
    case Info => "info"
    case Stats => "stats"
    case ActiveEra => "era" + ":" + "active"
    case Era(e) => NatToString(e) + ":" + "era"
    case ValidatorAtEra(e, s) => NatToString(e) + ":" + "era" + ":" + s + ":" + "val"
    case ValidatorAtEraScan(s) => "*" + ":" + "era" + ":" + s + ":" + "val"
    case BoardAtEra(e, n) => NatToString(e) + ":" + "era" + ":" + n + ":" + "board"
    case Validator(s) => s + ":" + "val"
    case ActiveErasByValidator(s) => s + ":" + "val" + ":" + "eras" + ":" + "active"
  }

  /** The ':'-separated pieces of a key's text; a board name may itself hold ':'. */
  function Parts(k: Key): (parts: seq<string>)
    ensures |parts| >= 1
  {
    match k
    case Network => ["network"]
    case Info => ["info"]
    case Stats => ["stats"]
    case ActiveEra => ["era", "active"]
    case Era(e) => [NatToString(e), "era"]
    case ValidatorAtEra(e, s) => [NatToString(e), "era", s, "val"]
    case ValidatorAtEraScan(s) => ["*", "era", s, "val"]
    case BoardAtEra(e, n) => [NatToString(e), "era"] + Split(n, ':') + ["board"]
    case Validator(s) => [s, "val"]
    case ActiveErasByValidator(s) => [s, "val", "eras", "active"]
  }

  /** An era index as it appears in a key: canonical decimal of a 32-bit value. */
  function ParseEra(t: string): (r: Option<EraIndex>)
    ensures r.Some? ==> NatToString(r.value) == t
  {
    match ParseCanonical(t)
    case Some(v) =>
      if v < U32_BOUND then
        CanonicalText(t);
        Some(v)
      else None
    case None => None
  }

  lemma CanonicalText(t: string)
    requires ParseCanonical(t).Some?
    ensures NatToString(ParseCanonical(t).value) == t
  {
    var v := ParseCanonical(t).value;
    ParseCanonicalNatToString(v);
    CanonicalUnique(t, NatToString(v));
  }

  lemma CanonicalUnique(a: string, b: string)
    requires ParseCanonical(a).Some? && ParseCanonical(a) == ParseCanonical(b)
    ensures a == b
  {
    CanonicalDigits(a);
    CanonicalDigits(b);
    var v := ParseCanonical(a).value;
    assert a == NatToString(v) == b;
  }

  /** A canonical decimal text (no sign, no leading zero) is the rendering of its value. */
  lemma {:induction false} CanonicalDigits(t: string)
    requires |t| > 0 && AllDigits(t) && (t[0] != '0' || |t| == 1)
    ensures NatToString(DigitsValue(t)) == t
    decreases |t|
  {
    if |t| > 1 {
      var init := t[..|t| - 1];
      assert init[0] == t[0];
      CanonicalDigits(init);
      var v := DigitsValue(t);
      var d := DigitValue(t[|t| - 1]);
      assert v == DigitsValue(init) * 10 + d;
      assert DigitsValue(init) > 0 by {
        DigitsValueOfNatToString(DigitsValue(init));
        assert NatToString(DigitsValue(init))[0] != '0';
      }
      assert v / 10 == DigitsValue(init) && v % 10 == d;
      assert DigitChar(d) == t[|t| - 1];
      assert t == init + [t[|t| - 1]];
    } else {
      assert DigitChar(DigitValue(t[0])) == t[0];
    }
  }

  /** Reads a key back from its pieces. */
  function ParseKey(parts: seq<string>): Option<Key> {
    if parts == ["network"] then Some(Network)
    else if parts == ["info"] then Some(Info)
    else if parts == ["stats"] then Some(Stats)
    else if parts == ["era", "active"] then Some(ActiveEra)
    else if |parts| == 2 && parts[1] == "era" && ParseEra(parts[0]).Some? then
      Some(Era(ParseEra(parts[0]).value))
    else if |parts| == 2 && parts[1] == "val" then Some(Validator(parts[0]))
    else if |parts| == 4 && parts[0] == "*" && parts[1] == "era" && parts[3] == "val" then
      Some(ValidatorAtEraScan(parts[2]))
    else if |parts| == 4 && parts[1] == "era" && parts[3] == "val" && ParseEra(parts[0]).Some? then
      Some(ValidatorAtEra(ParseEra(parts[0]).value, parts[2]))
    else if |parts| == 4 && parts[1] == "val" && parts[2] == "eras" && parts[3] == "active" then
      Some(ActiveErasByValidator(parts[0]))
    else if |parts| >= 3 && parts[1] == "era" && parts[|parts| - 1] == "board" && ParseEra(parts[0]).Some? then
      Some(BoardAtEra(ParseEra(parts[0]).value, Join(parts[2..|parts| - 1], ':')))
    else None
  }

  lemma EraTextHasNoColon(e: EraIndex)
    ensures ':' !in NatToString(e) && NatToString(e) != "*"
    ensures ParseEra(NatToString(e)) == Some(e)
  {
    var t := NatToString(e);
    assert forall i :: 0 <= i < |t| ==> IsDigit(t[i]);
    assert IsDigit(t[0]);
    ParseCanonicalNatToString(e);
  }

  /** The text of a well-formed key splits at ':' into its pieces. */
  lemma RenderSplit(k: Key)
    requires WellFormed(k)
    ensures Split(Render(k), ':') == Parts(k)
  {
    match k
    case Network =>
      SplitNoSeparator("network", ':');
    case Info =>
      SplitNoSeparator("info", ':');
    case Stats =>
      SplitNoSeparator("stats", ':');
    case ActiveEra =>
      SplitTwo("era", "active");
    case Era(e) =>
      EraTextHasNoColon(e);
      SplitTwo(NatToString(e), "era");
    case ValidatorAtEra(e, s) =>
      EraTextHasNoColon(e);
      AddressIsPlain(s);
      SplitFour(NatToString(e), "era", s, "val");
    case ValidatorAtEraScan(s) =>
      AddressIsPlain(s);
      SplitFour("*", "era", s, "val");
    case BoardAtEra(e, n) =>
      RenderSplitBoard(e, n);
    case Validator(s) =>
      AddressIsPlain(s);
      SplitTwo(s, "val");
    case ActiveErasByValidator(s) =>
      AddressIsPlain(s);
      SplitFour(s, "val", "eras", "active");
  }

  /** A board key splits into its era, "era", the pieces of its name and "board". */
  lemma RenderSplitBoard(e: EraIndex, n: string)
    ensures Split(Render(BoardAtEra(e, n)), ':') == Parts(BoardAtEra(e, n))
  {
    EraTextHasNoColon(e);
    var t, era := NatToString(e), "era";
    SplitTwo(t, era);
    SplitNoSeparator("board", ':');
    SplitConcat(t + ":" + era, ':', n);
    SplitConcat(t + ":" + era + ":" + n, ':', "board");
  }

  /** Two colon-free pieces joined by ':' split back into those pieces. */
  lemma SplitTwo(a: string, b: string)
    requires ':' !in a && ':' !in b
    ensures Split(a + ":" + b, ':') == [a, b]
  {
    SplitNoSeparator(a, ':');
    SplitNoSeparator(b, ':');
    SplitConcat(a, ':', b);
  }

  /** Four colon-free pieces joined by ':' split back into those pieces. */
  lemma SplitFour(a: string, b: string, c: string, d: string)
    requires ':' !in a && ':' !in b && ':' !in c && ':' !in d
    ensures Split(a + ":" + b + ":" + c + ":" + d, ':') == [a, b, c, d]
  {
    SplitNoSeparator(a, ':');
    SplitNoSeparator(b, ':');
    SplitNoSeparator(c, ':');
    SplitNoSeparator(d, ':');
    SplitConcat(a, ':', b);
    SplitConcat(a + ":" + b, ':', c);
    SplitConcat(a + ":" + b + ":" + c, ':', d);
  }

  /** Every well-formed key is read back from its text. */
  lemma ParseKeyRender(k: Key)
    requires WellFormed(k)
    ensures ParseKey(Split(Render(k), ':')) == Some(k)
  {
    RenderSplit(k);
    ParseParts(k);
  }

  /** Every well-formed key is read back from its pieces. */
  lemma ParseParts(k: Key)
    requires WellFormed(k)
    ensures ParseKey(Parts(k)) == Some(k)
  {
    match k
    case Network =>
    case Info =>
    case Stats =>
    case ActiveEra =>
    case Era(e) =>
      ParseEraParts(e);
    case ValidatorAtEra(e, s) =>
      ParseValidatorAtEraParts(e, s);
    case ValidatorAtEraScan(s) =>
      ParseScanParts(s);
    case BoardAtEra(e, n) =>
      ParseBoardParts(e, n);
    case Validator(s) =>
      ParseValidatorParts(s);
    case ActiveErasByValidator(s) =>
      ParseActiveErasParts(s);
  }

  lemma ParseEraParts(e: EraIndex)
    ensures ParseKey([NatToString(e), "era"]) == Some(Era(e))
  {
    EraTextHasNoColon(e);
  }

  lemma ParseValidatorParts(s: string)
    ensures ParseKey([s, "val"]) == Some(Validator(s))
  {
  }

  lemma ParseValidatorAtEraParts(e: EraIndex, s: string)
    ensures ParseKey([NatToString(e), "era", s, "val"]) == Some(ValidatorAtEra(e, s))
  {
    EraTextHasNoColon(e);
  }

  lemma ParseScanParts(s: string)
    ensures ParseKey(["*", "era", s, "val"]) == Some(ValidatorAtEraScan(s))
  {
  }

  lemma ParseActiveErasParts(s: string)
    ensures ParseKey([s, "val", "eras", "active"]) == Some(ActiveErasByValidator(s))
  {
  }

  lemma ParseBoardParts(e: EraIndex, n: string)
    ensures ParseKey([NatToString(e), "era"] + Split(n, ':') + ["board"]) == Some(BoardAtEra(e, n))
  {
    EraTextHasNoColon(e);
    var parts := [NatToString(e), "era"] + Split(n, ':') + ["board"];
    assert parts[2..|parts| - 1] == Split(n, ':');
    JoinSplit(n, ':');
  }

  /** Distinct well-formed keys never share a text: the cache schema has no collisions. */
  lemma RenderInjective(k1: Key, k2: Key)
    requires WellFormed(k1) && WellFormed(k2) && Render(k1) == Render(k2)
    ensures k1 == k2
  {
    ParseKeyRender(k1);
    ParseKeyRender(k2);
  }

  /** The text of a validator-at-era key up to its first ':' is the era index. */
  lemma ValidatorAtEraPrefix(e: EraIndex, s: string)
    requires IsAddress(s)
    ensures FindChar(Render(ValidatorAtEra(e, s)), ':') == Some(|NatToString(e)|)
    ensures Render(ValidatorAtEra(e, s))[..|NatToString(e)|] == NatToString(e)
  {
    EraTextHasNoColon(e);
    var t := NatToString(e);
    var rest := "era" + ":" + s + ":" + "val";
    KeyAfterEra(t, rest, Render(ValidatorAtEra(e, s)));
    FindCharAfterPrefix(t, ':', rest);
  }

  lemma KeyAfterEra(t: string, rest: string, key: string)
    requires key == t + ":" + rest
    ensures key == t + [':'] + rest && key[..|t|] == t
  {
  }

  /** What the SCAN pattern of a stash requires after its leading `*`. */
  function ScanTail(s: string): string {
    ":" + "era" + ":" + s + ":" + "val"
  }

  lemma PrefixScanTail(head: string, s: string)
    ensures head + ScanTail(s) == head + ":" + "era" + ":" + s + ":" + "val"
  {
  }

  lemma ScanTailLiteral(s: string)
    requires IsAddress(s)
    ensures Literal(ScanTail(s))
  {
    AddressIsPlain(s);
    var t := ScanTail(s);
    forall i | 0 <= i < |t|
      ensures t[i] !in "*?[\\"
    {
      if 5 <= i < 5 + |s| {
        assert t[i] == s[i - 5];
      }
    }
  }

  /** A key whose pieces end with "era", the stash and "val" is a validator-at-era key of
      that stash, or the pattern's own text. */
  lemma PartsEndingWithStash(k: Key, s: string, pre: seq<string>)
    requires WellFormed(k) && |pre| >= 1 && Parts(k) == pre + ["era", s, "val"]
    ensures (k.ValidatorAtEra? || k.ValidatorAtEraScan?) && k.stash == s
  {
    var parts := Parts(k);
    assert parts[|parts| - 1] == "val" && parts[|parts| - 2] == s && |parts| >= 4;
  }

  /** A text ending with the scan tail of a colon-free stash splits into the pieces of
      its head followed by "era", the stash and "val". */
  lemma SplitScanTail(head: string, s: string)
    requires ':' !in s
    ensures Split(head + ScanTail(s), ':') == Split(head, ':') + ["era", s, "val"]
  {
    PrefixScanTail(head, s);
    SplitNoSeparator("era", ':');
    SplitNoSeparator("val", ':');
    SplitNoSeparator(s, ':');
    SplitConcat(head, ':', "era");
    SplitConcat(head + ":" + "era", ':', s);
    SplitConcat(head + ":" + "era" + ":" + s, ':', "val");
  }

  /** The keys of the stash's validator-at-era entries end with the scan tail. */
  lemma StashKeyEndsWithScanTail(k: Key, s: string)
    requires (k.ValidatorAtEra? || k.ValidatorAtEraScan?) && k.stash == s
    ensures EndsWith(Render(k), ScanTail(s))
  {
    var head := if k.ValidatorAtEra? then NatToString(k.era) else "*";
    PrefixScanTail(head, s);
    var key := Render(k);
    assert key == head + ScanTail(s);
    assert key[|key| - |ScanTail(s)|..] == ScanTail(s);
  }

  /** A well-formed key ending with the scan tail of a stash is one of the stash's
      validator-at-era keys. */
  lemma ScanTailKey(k: Key, s: string)
    requires IsAddress(s) && WellFormed(k) && EndsWith(Render(k), ScanTail(s))
    ensures (k.ValidatorAtEra? || k.ValidatorAtEraScan?) && k.stash == s
  {
    AddressIsPlain(s);
    var key, tail := Render(k), ScanTail(s);
    var head := key[..|key| - |tail|];
    assert key == head + tail;
    SplitScanTail(head, s);
    RenderSplit(k);
    PartsEndingWithStash(k, s, Split(head, ':'));
  }

  /** The SCAN pattern of a stash matches, among well-formed keys, exactly the stash's
      validator-at-era keys (and the pattern's own text). */
  lemma ScanPatternMatches(s: string, k: Key)
    requires IsAddress(s) && WellFormed(k)
    ensures Glob(Render(ValidatorAtEraScan(s)), Render(k)) <==>
            (k.ValidatorAtEra? || k.ValidatorAtEraScan?) && k.stash == s
  {
    ScanTailLiteral(s);
    PrefixScanTail("*", s);
    GlobStarSuffix(ScanTail(s), Render(k));
    if EndsWith(Render(k), ScanTail(s)) {
      ScanTailKey(k, s);
    }
    if (k.ValidatorAtEra? || k.ValidatorAtEraScan?) && k.stash == s {
      StashKeyEndsWithScanTail(k, s);
    }
  }

  /** The account id at the end of a storage key: the key's last 32 bytes
      (`get_account_id_from_storage_key`). */
  function AccountIdFromStorageKey(key: seq<bv8>): (id: seq<bv8>)
    requires |key| >= 32
    ensures |id| == 32 && key == key[..|key| - 32] + id
  {
    key[|key| - 32..]
  }

  /** A map entry's storage key under the `Twox64Concat`/`Blake2_128Concat` hashers ends with
      the account id itself; whatever precedes it (pallet and item hashes, key hash), the
      account id is recovered. */
  lemma AccountIdRoundTrip(prefix: seq<bv8>, account: seq<bv8>)
    requires |account| == 32
    ensures AccountIdFromStorageKey(prefix + account) == account
  {
    assert (prefix + account)[|prefix|..] == account;
  }

  /** An identity field (`Data`): no data, raw bytes of up to 32 (held here as their decoded
      text) or one of the hash forms. */
  datatype IdentityData =
    | NoData
    | Raw(text: string)
    | BlakeTwo256(hash: seq<bv8>)
    | Sha256(hash: seq<bv8>)
    | Keccak256(hash: seq<bv8>)
    | ShaThree256(hash: seq<bv8>)

  /** `parse_identity_data`: the raw text, or "???" for every other form (no data included). */
  function ParseIdentityData(d: IdentityData): (name: string)
    ensures d.Raw? ==> name == d.text
    ensures !d.Raw? ==> name == "???"
  {
    match d
    case Raw(t) => t
    case _ => "???"
  }
}
