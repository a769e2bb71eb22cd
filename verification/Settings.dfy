/** Settings: their spellings, their rows and the cache over them (config/config.go). */
module Settings {

  import opened Wrappers
  import opened Decimal

  datatype Switch = Scheduler | SideStoryBackfill | EventStoryAutoAi | LyricsDiscovery | LyricsFetchRevision | BackupS3 | BackupGit
  datatype Number = LlmRequestTimeout | LlmMaxRetries | BatchSize | RateDelay | FetchConcurrency | BackupDailyHour
  datatype Service = OpenAiBase | BackupS3Endpoint
  datatype Upstream =
    | Version | VersionFallback | JpMasterdata | JpMasterdataFallback | CnMasterdata | CnMasterdataFallback
    | JpAssets | JpAssetsFallback | CnAssets | CnAssetsFallback | EnMasterdata | EnMasterdataFallback
    | JpScripts | JpScriptsFallback | JpScriptsLibrary | CnScripts | EnScripts | MusicAliases
  datatype Free =
    | GeminiModel | OpenAiModel | UpstreamRepo | UpstreamBranch | LastDataVersion | PendingDataVersion
    | S3Region | S3Bucket | S3Prefix | GitBranch
  datatype Secret = GeminiApiKey | OpenAiApiKey | S3AccessKey | S3SecretKey | GitRepoUrl

  /** Unknown: a key of the table that is no setting. */
  datatype Key =
    | SwitchKey(toggle: Switch) | NumberKey(number: Number) | LlmTypeKey | ServiceKey(service: Service)
    | UpstreamKey(upstream: Upstream) | FreeKey(free: Free) | SecretKey(secret: Secret) | UnknownKey(name: string)

  datatype Row = Row(value: string, encrypted: bool)
  type Table = map<Key, Row>
  type Cache = map<Key, string>

  /** URL policies, the cipher of the master key, and whether there is one. */
  datatype Env = Env(
    service: (Service, string) -> bool,
    upstream: (Upstream, string) -> bool,
    encrypt: (nat, string) -> string,
    decrypt: string -> Option<string>,
    hasKey: bool)

  ghost predicate Lawful(env: Env) {
    forall nonce, plain :: env.decrypt(env.encrypt(nonce, plain)) == Some(plain)
  }

  // ---- trimming ----

  /** unicode.IsSpace. */
  predicate IsSpace(c: char) {
    var n := c as int;
    || 0x09 <= n <= 0x0D || n == 0x20 || n == 0x85 || n == 0xA0 || n == 0x1680 || 0x2000 <= n <= 0x200A
    || n == 0x2028 || n == 0x2029 || n == 0x202F || n == 0x205F || n == 0x3000
  }

  function TrimLeft(s: string): (r: string)
    ensures r == [] || !IsSpace(r[0])
    ensures |r| <= |s| && r == s[|s| - |r|..]
  {
    if s == [] || !IsSpace(s[0]) then s else TrimLeft(s[1..])
  }

  function TrimRight(s: string): (r: string)
    ensures r == [] || !IsSpace(r[|r| - 1])
    ensures |r| <= |s| && r == s[..|r|]
  {
    if s == [] || !IsSpace(s[|s| - 1]) then s else TrimRight(s[..|s| - 1])
  }

  function Trim(s: string): string {
    TrimRight(TrimLeft(s))
  }

  lemma TrimKeepsSpaceless(s: string)
    requires s == [] || (!IsSpace(s[0]) && !IsSpace(s[|s| - 1]))
    ensures Trim(s) == s
  {}

  // ---- spellings ----

  /** The boolean a spelling stands for. */
  function Truth(value: string): Option<bool> {
    if value == "true" || value == "1" || value == "yes" || value == "on" then Some(true)
    else if value == "false" || value == "0" || value == "no" || value == "off" then Some(false)
    else None
  }

  function CanonicalSwitch(value: string): string {
    if value == "1" || value == "yes" || value == "on" then "true"
    else if value == "0" || value == "no" || value == "off" then "false"
    else value
  }

  function CanonicalNumber(value: string): string {
    var number := Atoi(Trim(value));
    if number.None? then value else Itoa(number.value)
  }

  /** canonicalSettingValue; unchanged when the value is no legacy spelling. */
  function Canonical(key: Key, value: string): string {
    if key.SwitchKey? then CanonicalSwitch(value)
    else if key.NumberKey? then CanonicalNumber(value)
    else value
  }

  function Least(number: Number): int {
    match number
    case LlmRequestTimeout => 1
    case LlmMaxRetries => 0
    case BatchSize => 1
    case RateDelay => 0
    case FetchConcurrency => 1
    case BackupDailyHour => 0
  }

  function Most(number: Number): int {
    match number
    case LlmRequestTimeout => 300000
    case LlmMaxRetries => 5
    case BatchSize => 200
    case RateDelay => 60000
    case FetchConcurrency => 12
    case BackupDailyHour => 23
  }

  predicate ValidNumber(number: Number, value: string) {
    Atoi(value).Some? && Least(number) <= Atoi(value).value <= Most(number) && Itoa(Atoi(value).value) == value
  }

  predicate ValidSwitch(value: string) {
    value == "true" || value == "false"
  }

  predicate ValidType(value: string) {
    value == "gemini" || value == "openai"
  }

  /** validateSettingValue. */
  predicate Valid(env: Env, key: Key, value: string) {
    match key
    case SwitchKey(_) => ValidSwitch(value)
    case NumberKey(number) => ValidNumber(number, value)
    case LlmTypeKey => ValidType(value)
    case ServiceKey(service) => Trim(value) == "" || env.service(service, Trim(value))
    case UpstreamKey(upstream) => value == "" || env.upstream(upstream, value)
    case _ => true
  }

  lemma SwitchSpellings(value: string)
    ensures Truth(CanonicalSwitch(value)) == Truth(value)
    ensures CanonicalSwitch(CanonicalSwitch(value)) == CanonicalSwitch(value)
    ensures ValidSwitch(value) ==> CanonicalSwitch(value) == value
    ensures ValidSwitch(CanonicalSwitch(value)) <==> Truth(value).Some?
  {}

  lemma NumberIsSpaceless(n: int)
    ensures Trim(Itoa(n)) == Itoa(n)
  {
    var s := Itoa(n);
    if n < 0 {
      var digits := Format(-n);
      assert s[|s| - 1] == digits[|digits| - 1];
    }
    TrimKeepsSpaceless(s);
  }

  lemma AtoiRange(s: string)
    requires Atoi(s).Some?
    ensures MIN_INT64 <= Atoi(s).value <= MAX_INT64
  {}

  /** What Itoa prints is canonical and reads back. */
  lemma PrintedIsCanonical(n: int)
    requires MIN_INT64 <= n <= MAX_INT64
    ensures CanonicalNumber(Itoa(n)) == Itoa(n) && Atoi(Trim(Itoa(n))) == Some(n)
  {
    NumberIsSpaceless(n);
    AtoiOfItoa(n);
  }

  lemma NumberSpellings(value: string)
    ensures CanonicalNumber(CanonicalNumber(value)) == CanonicalNumber(value)
    ensures Atoi(Trim(CanonicalNumber(value))) == Atoi(Trim(value))
  {
    var number := Atoi(Trim(value));
    if number.Some? {
      AtoiRange(Trim(value));
      PrintedIsCanonical(number.value);
    }
  }

  lemma ValidIsCanonical(number: Number, value: string)
    requires ValidNumber(number, value)
    ensures CanonicalNumber(value) == value
  {
    AtoiRange(value);
    PrintedIsCanonical(Atoi(value).value);
  }

  /** Rewriting a legacy spelling keeps what it means, happens once, and leaves
      every valid value alone. */
  lemma CanonicalKeepsMeaning(env: Env, key: Key, value: string)
    ensures Canonical(key, Canonical(key, value)) == Canonical(key, value)
    ensures Valid(env, key, value) ==> Canonical(key, value) == value
    ensures key.SwitchKey? ==> Truth(Canonical(key, value)) == Truth(value)
    ensures key.NumberKey? ==> Atoi(Trim(Canonical(key, value))) == Atoi(Trim(value))
    ensures !key.SwitchKey? && !key.NumberKey? ==> Canonical(key, value) == value
  {
    SwitchSpellings(value);
    NumberSpellings(value);
    if key.NumberKey? && ValidNumber(key.number, value) {
      ValidIsCanonical(key.number, value);
    }
  }
}
