/** The info endpoint: the chain's details and the synchronisation status, each read from
    its own cached hash. */
module InfoHandler {
  import opened Common
  import opened Text
  import opened Keys
  import opened Store
  import opened Fields

  datatype ChainDetailsResponse = ChainDetailsResponse(
    name: string,
    tokenSymbol: string,
    tokenDecimals: nat,
    ss58Format: nat,
    substrateNodeUrl: string)

  datatype CacheInfoResponse = CacheInfoResponse(
    syncing: bool,
    syncingStartedAt: nat,
    syncingFinishedAt: nat,
    validators: nat,
    nominators: nat)

  datatype InfoResponse = InfoResponse(
    pkgName: string,
    pkgVersion: string,
    apiPath: string,
    chain: ChainDetailsResponse,
    cache: CacheInfoResponse)

  /** The path prefix the service answers under. */
  const API_PATH := "/api/v1"

  /** `From<BTreeMap> for ChainDetailsResponse`: the texts as stored ("" when missing), the
      token decimals and address format parsed as `u8`. */
  function ChainDetailsFrom(data: Hash): (r: ChainDetailsResponse)
    ensures r.tokenDecimals < U8_BOUND && r.ss58Format < U8_BOUND
    ensures "name" !in data ==> r.name == ""
  {
    ChainDetailsResponse(
      TextField(data, "name", ""),
      TextField(data, "token_symbol", ""),
      NumberField(data, "token_decimals", U8_BOUND),
      NumberField(data, "ss58_format", U8_BOUND),
      TextField(data, "substrate_node_url", ""))
  }

  /** `From<BTreeMap> for CacheInfoResponse`: the flag parsed as a `bool`, the timestamps and
      counts as `u32`. */
  function CacheInfoFrom(data: Hash): (r: CacheInfoResponse)
    ensures r.syncing <==> "syncing" in data && data["syncing"] == "true"
    ensures r.syncingStartedAt < U32_BOUND && r.syncingFinishedAt < U32_BOUND
    ensures r.validators < U32_BOUND && r.nominators < U32_BOUND
  {
    CacheInfoResponse(
      FlagField(data, "syncing"),
      NumberField(data, "syncing_started_at", U32_BOUND),
      NumberField(data, "syncing_finished_at", U32_BOUND),
      NumberField(data, "validators", U32_BOUND),
      NumberField(data, "nominators", U32_BOUND))
  }

  /** `get_info`: the package name and version (fixed when the program is built, so given
      here), the API path, and the two cached hashes decoded. */
  function GetInfo(db: Db, pkgName: string, pkgVersion: string): (r: InfoResponse)
    ensures r.apiPath == "/api/v1"
    ensures r.pkgName == pkgName && r.pkgVersion == pkgVersion
    ensures r.cache.syncing <==> FieldAt(db, Render(Key.Info), "syncing") == Some("true")
  {
    InfoResponse(pkgName, pkgVersion, API_PATH,
      ChainDetailsFrom(HashAt(db, Render(Key.Network))),
      CacheInfoFrom(HashAt(db, Render(Key.Info))))
  }

  /** A decimals or address-format value that is not a number, or is above 255, reads as 0. */
  lemma ByteFieldsDefault(data: Hash)
    requires "token_decimals" in data && "ss58_format" in data
    requires ParseUnsigned(data["token_decimals"], U32_BOUND).Some? && ParseUnsigned(data["token_decimals"], U32_BOUND).value >= U8_BOUND
    requires ParseUnsigned(data["ss58_format"], U32_BOUND).None?
    ensures ChainDetailsFrom(data).tokenDecimals == 0
    ensures ChainDetailsFrom(data).ss58Format == 0
  {
  }

  /** With nothing cached, every text is empty, every number 0 and the flag false. */
  lemma NothingCached(pkgName: string, pkgVersion: string)
    ensures GetInfo(EmptyDb, pkgName, pkgVersion) ==
      InfoResponse(pkgName, pkgVersion, "/api/v1",
        ChainDetailsResponse("", "", 0, 0, ""),
        CacheInfoResponse(false, 0, 0, 0, 0))
  {
    ParseNatToString(0, U8_BOUND);
    ParseNatToString(0, U32_BOUND);
  }
}
