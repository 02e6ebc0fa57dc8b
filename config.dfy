/**
 * Local persisted state of the CLI (src/lib/config.ts): the configuration
 * record (auth token and base URL), the choice of API base URL, and the
 * "active session" marker that `browse` writes and `save` reads and clears.
 *
 * The two JSON files are modelled as fields of two store objects; a file that
 * exists but does not parse is a state of its own, because the source reads
 * it back as `null`.
 */
module Config {
  import opened Common

  datatype Config = Config(token: string, apiUrl: string, userId: Option<string>)

  /** The session marker; `sessionName` and `startedAt` are optional in the file. */
  datatype Session = Session(harRecording: bool, startedAt: Option<string>, sessionName: Option<string>)

  /** What is on disk at one of the two paths. */
  datatype StoredFile<T> = Missing | Unreadable | Holds(record: T)

  /** `config?.token` is truthy: a configuration is present and its token is
      not empty. Every command that talks to the service checks this first. */
  predicate HasToken(config: Option<Config>) {
    config.Some? && config.value.token != ""
  }

  const ProductionApiUrl: string := "https://www.grabbit.dev"

  /** `url.replace(/\/+$/, "")`: cut off the run of `/` that ends the string. */
  function StripTrailingSlashes(s: string): (r: string)
    ensures r == [] || r[|r| - 1] != '/'
    ensures |r| <= |s| && r == s[..|r|]
    ensures forall i :: |r| <= i < |s| ==> s[i] == '/'
  {
    if |s| > 0 && s[|s| - 1] == '/' then StripTrailingSlashes(s[..|s| - 1]) else s
  }

  /** Stripping is determined by its three properties: any split of `s` into a
      part not ending in `/` followed by only `/` characters is the one it finds. */
  lemma {:induction false} StripTrailingSlashesUnique(p: string, q: string)
    requires p == [] || p[|p| - 1] != '/'
    requires forall i :: 0 <= i < |q| ==> q[i] == '/'
    ensures StripTrailingSlashes(p + q) == p
    decreases |q|
  {
    if |q| > 0 {
      assert (p + q)[..|p + q| - 1] == p + q[..|q| - 1];
      StripTrailingSlashesUnique(p, q[..|q| - 1]);
    } else {
      assert p + q == p;
    }
  }

  lemma StripTrailingSlashesIdempotent(s: string)
    ensures StripTrailingSlashes(StripTrailingSlashes(s)) == StripTrailingSlashes(s)
  {
    var r := StripTrailingSlashes(s);
    StripTrailingSlashesUnique(r, []);
    assert r + [] == r;
  }

  /** `isLocalhost`, given the hostname the URL parser produced (`None` when
      the URL does not parse, which the source maps to `false`). */
  predicate IsLocalhost(hostname: Option<string>)
  {
    hostname.Some? &&
    var host := LowerString(hostname.value);
    host == "localhost" || host == "127.0.0.1" || host == "::1"
  }

  /** The comparison ignores the case of the hostname's letters. */
  lemma IsLocalhostIgnoresCase(hostname: string)
    ensures IsLocalhost(Some(hostname)) <==> IsLocalhost(Some(LowerString(hostname)))
    ensures IsLocalhost(Some(hostname)) <==> LowerString(hostname) in {"localhost", "127.0.0.1", "::1"}
  {
    assert LowerString(LowerString(hostname)) == LowerString(hostname);
  }

  /** The configured URL is used when it is set and, once stripped, does not
      name this machine. */
  predicate ConfiguredUrlUsable(config: Option<Config>, hostOf: string -> Option<string>)
  {
    config.Some? && config.value.apiUrl != "" &&
    !IsLocalhost(hostOf(StripTrailingSlashes(config.value.apiUrl)))
  }

  /** `getApiUrl`: a non-empty GRABBIT_API_URL wins; then the configured URL
      unless it points at this machine; then the production URL. `hostOf`
      stands for `new URL(u).hostname`. */
  function GetApiUrl(envUrl: Option<string>, config: Option<Config>, hostOf: string -> Option<string>): (r: string)
    ensures Truthy(envUrl) ==> r == StripTrailingSlashes(envUrl.value)
    ensures !Truthy(envUrl) && ConfiguredUrlUsable(config, hostOf) ==> r == StripTrailingSlashes(config.value.apiUrl)
    ensures !Truthy(envUrl) && !ConfiguredUrlUsable(config, hostOf) ==> r == ProductionApiUrl
    ensures !Truthy(envUrl) && r != ProductionApiUrl ==> !IsLocalhost(hostOf(r))
    ensures r == [] || r[|r| - 1] != '/'
  {
    if Truthy(envUrl) then StripTrailingSlashes(envUrl.value)
    else if ConfiguredUrlUsable(config, hostOf) then StripTrailingSlashes(config.value.apiUrl)
    else ProductionApiUrl
  }

  /** The record `saveConfig` writes (it also rewrites the caller's object). */
  function NormalizeConfig(c: Config): (r: Config)
    ensures r.token == c.token && r.userId == c.userId
    ensures c.apiUrl != "" ==> r.apiUrl == StripTrailingSlashes(c.apiUrl)
    ensures c.apiUrl == "" ==> r.apiUrl == ""
    ensures r.apiUrl == [] || r.apiUrl[|r.apiUrl| - 1] != '/'
  {
    if c.apiUrl != "" then c.(apiUrl := StripTrailingSlashes(c.apiUrl)) else c
  }

  /** `~/.grabbit/config.json`. */
  class ConfigStore {
    var file: StoredFile<Config>

    constructor (initial: StoredFile<Config>)
      ensures file == initial
    {
      file := initial;
    }

    /** `getConfig`: `null` when the file is missing or does not parse. */
    function GetConfig(): (r: Option<Config>)
      reads this
      ensures r.Some? <==> file.Holds?
      ensures r.Some? ==> r.value == file.record
    {
      if file.Holds? then Some(file.record) else None
    }

    /** `saveConfig`: normalise the URL, then overwrite the file. */
    method SaveConfig(c: Config) returns (written: Config)
      modifies this
      ensures written == NormalizeConfig(c)
      ensures file == Holds(written)
      ensures GetConfig() == Some(written)
    {
      written := c;
      if written.apiUrl != "" {
        written := written.(apiUrl := StripTrailingSlashes(written.apiUrl));
      }
      file := Holds(written);
    }

    /** `clearConfig`. */
    method ClearConfig()
      modifies this
      ensures file == Missing && GetConfig() == None
    {
      if file != Missing {
        file := Missing;
      }
    }
  }

  /** `~/.grabbit/session.json`: at most one tracked session. */
  class SessionStore {
    var file: StoredFile<Session>

    constructor (initial: StoredFile<Session>)
      ensures file == initial
    {
      file := initial;
    }

    /** `getSession`: the last record written, or `null` when the file is
        missing or does not parse. */
    function GetSession(): (r: Option<Session>)
      reads this
      ensures r.Some? <==> file.Holds?
      ensures r.Some? ==> r.value == file.record
    {
      if file.Holds? then Some(file.record) else None
    }

    /** `saveSession`: the whole record is replaced, never merged. */
    method SaveSession(s: Session)
      modifies this
      ensures file == Holds(s)
      ensures GetSession() == Some(s)
    {
      file := Holds(s);
    }

    /** `clearSession`: afterwards there is no session, whatever was there. */
    method ClearSession()
      modifies this
      ensures file == Missing
      ensures GetSession() == None
    {
      if file != Missing {
        file := Missing;
      }
    }
  }
}
