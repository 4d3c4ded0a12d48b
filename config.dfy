/** Command-line flags and the configuration file (package config).

    Reading the YAML file and the flag package are outside the model: the
    decoded configuration and the parsed flag values are parameters, and so
    are the environment and the current user's home directory. */
module Config {
  import opened Common
  import opened Paths

  const DefaultSatValidHours := 48
  const DefaultCacheValiditySeconds := 8 * 60 * 60      // 8 hours
  const DefaultInventoryValiditySeconds := 2 * 60 * 60  // 2 hours

  /** Where the configuration is read from when neither --config nor the
      environment names a file. */
  const DefaultConfigPath := "/etc/ansible/satinv.yml"
  const ConfigEnvVar := "SATINVCFG"

  datatype ApiSettings = ApiSettings(baseURL: string, certFile: string, password: string, user: string)

  datatype CacheSettings = CacheSettings(
    dir: string,
    validityHosts: int,
    validityCollections: int,
    validityInventory: int)

  datatype LoggingSettings = LoggingSettings(journal: bool, levelStr: string, filename: string)

  datatype ValidSettings = ValidSettings(
    hours: int,
    unlicensed: bool,
    excludeHosts: seq<string>,
    excludeRegex: seq<string>)

  datatype Config = Config(
    api: ApiSettings,
    cache: CacheSettings,
    cidrs: map<string, string>,
    inventoryPrefix: string,
    logging: LoggingSettings,
    valid: ValidSettings)

  datatype Flags = Flags(config: string, debug: bool, list: bool, refresh: bool)

  /** What opening and decoding the configuration file produced. */
  datatype Decoded = OpenFailed | DecodeFailed | Decoded(config: Config)

  datatype ConfigError = CannotOpen | CannotDecode

  /** os.Getenv: the empty string for an unset variable. */
  function Getenv(env: map<string, string>, name: string): string
  {
    if name in env then env[name] else ""
  }

  /** expandTilde: "~" is the home directory, "~/p" is p inside it, and any
      other path is returned as it is. */
  function ExpandTilde(inPath: string, home: string): (outPath: string)
    ensures inPath == "~" ==> outPath == home
    ensures |inPath| >= 2 && inPath[..2] == "~/" ==> outPath == Join(home, inPath[2..])
    ensures inPath != "~" && !(|inPath| >= 2 && inPath[..2] == "~/") ==> outPath == inPath
  {
    if inPath == "~" then home
    else if |inPath| >= 2 && inPath[..2] == "~/" then Join(home, inPath[2..])
    else inPath
  }

  /** A path that does not start with '~' is never expanded. */
  predicate NoTilde(p: string)
  {
    p == [] || p[0] != '~'
  }

  /** Expanding twice is expanding once, when the home directory is a
      non-empty path that does not itself start with '~'. */
  lemma {:induction false} ExpandTildeIdempotent(inPath: string, home: string)
    requires home != [] && NoTilde(home)
    ensures ExpandTilde(ExpandTilde(inPath, home), home) == ExpandTilde(inPath, home)
  {
    var once := ExpandTilde(inPath, home);
    if inPath == "~" {
      assert once == home;
    } else if |inPath| >= 2 && inPath[..2] == "~/" {
      assert home <= once;
      assert once[0] == home[0];
    } else {
      assert once == inPath;
    }
  }

  /** The configuration after ParseConfig's defaults and tilde expansion:
      every zero validity takes its default, every non-zero one is kept, the
      cache directory and the log file are expanded, and nothing else
      changes. */
  function WithDefaults(c: Config, home: string): (d: Config)
    ensures d.valid.hours != 0 && d.cache.validityHosts != 0
    ensures d.cache.validityCollections != 0 && d.cache.validityInventory != 0
    ensures c.valid.hours == 0 ==> d.valid.hours == 48
    ensures c.cache.validityHosts == 0 ==> d.cache.validityHosts == 28800
    ensures c.cache.validityCollections == 0 ==> d.cache.validityCollections == 28800
    ensures c.cache.validityInventory == 0 ==> d.cache.validityInventory == 7200
    ensures c.valid.hours != 0 ==> d.valid.hours == c.valid.hours
    ensures c.cache.validityHosts != 0 ==> d.cache.validityHosts == c.cache.validityHosts
    ensures c.cache.validityCollections != 0 ==> d.cache.validityCollections == c.cache.validityCollections
    ensures c.cache.validityInventory != 0 ==> d.cache.validityInventory == c.cache.validityInventory
    ensures d.cache.dir == ExpandTilde(c.cache.dir, home)
    ensures d.logging.filename == ExpandTilde(c.logging.filename, home)
    ensures d.api == c.api && d.cidrs == c.cidrs && d.inventoryPrefix == c.inventoryPrefix
    ensures d.logging.journal == c.logging.journal && d.logging.levelStr == c.logging.levelStr
    ensures d.valid.unlicensed == c.valid.unlicensed && d.valid.excludeHosts == c.valid.excludeHosts
    ensures d.valid.excludeRegex == c.valid.excludeRegex
  {
    c.(valid := c.valid.(hours := if c.valid.hours == 0 then DefaultSatValidHours else c.valid.hours),
       cache := CacheSettings(
         ExpandTilde(c.cache.dir, home),
         if c.cache.validityHosts == 0 then DefaultCacheValiditySeconds else c.cache.validityHosts,
         if c.cache.validityCollections == 0 then DefaultCacheValiditySeconds else c.cache.validityCollections,
         if c.cache.validityInventory == 0 then DefaultInventoryValiditySeconds else c.cache.validityInventory),
       logging := c.logging.(filename := ExpandTilde(c.logging.filename, home)))
  }

  /** Applying the defaults to a configuration that already has them changes
      nothing. */
  lemma {:induction false} WithDefaultsIdempotent(c: Config, home: string)
    requires home != [] && NoTilde(home)
    ensures WithDefaults(WithDefaults(c, home), home) == WithDefaults(c, home)
  {
    ExpandTildeIdempotent(c.cache.dir, home);
    ExpandTildeIdempotent(c.logging.filename, home);
  }

  /** ParseConfig: a file that cannot be opened or decoded is an error;
      otherwise the zero settings are overwritten with their defaults one
      by one and the two paths are tilde-expanded. */
  method ParseConfig(decoded: Decoded, home: string) returns (r: Result<Config, ConfigError>)
    ensures decoded.OpenFailed? ==> r == Err(CannotOpen)
    ensures decoded.DecodeFailed? ==> r == Err(CannotDecode)
    ensures decoded.Decoded? ==> r == Ok(WithDefaults(decoded.config, home))
  {
    if decoded.OpenFailed? {
      return Err(CannotOpen);
    }
    if decoded.DecodeFailed? {
      return Err(CannotDecode);
    }
    var config := decoded.config;
    if config.valid.hours == 0 {
      config := config.(valid := config.valid.(hours := DefaultSatValidHours));
    }
    if config.cache.validityHosts == 0 {
      config := config.(cache := config.cache.(validityHosts := DefaultCacheValiditySeconds));
    }
    if config.cache.validityCollections == 0 {
      config := config.(cache := config.cache.(validityCollections := DefaultCacheValiditySeconds));
    }
    if config.cache.validityInventory == 0 {
      config := config.(cache := config.cache.(validityInventory := DefaultInventoryValiditySeconds));
    }
    config := config.(cache := config.cache.(dir := ExpandTilde(config.cache.dir, home)));
    config := config.(logging := config.logging.(filename := ExpandTilde(config.logging.filename, home)));
    r := Ok(config);
  }

  /** ParseFlags: an explicit --config wins, even if the file is missing;
      otherwise a non-empty SATINVCFG; otherwise the default path.  The
      chosen path is never empty, and the other flags pass through. */
  method ParseFlags(configFlag: string, debug: bool, list: bool, refresh: bool, env: map<string, string>)
    returns (f: Flags)
    ensures configFlag != "" ==> f.config == configFlag
    ensures configFlag == "" && Getenv(env, ConfigEnvVar) != "" ==> f.config == env[ConfigEnvVar]
    ensures configFlag == "" && Getenv(env, ConfigEnvVar) == "" ==> f.config == DefaultConfigPath
    ensures f.config != ""
    ensures f.debug == debug && f.list == list && f.refresh == refresh
  {
    f := Flags(configFlag, debug, list, refresh);
    if f.config == "" {
      if Getenv(env, ConfigEnvVar) == "" {
        f := f.(config := DefaultConfigPath);
      } else {
        f := f.(config := Getenv(env, ConfigEnvVar));
      }
    }
  }
}
