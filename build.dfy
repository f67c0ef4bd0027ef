/** `build` (src/build.ts): fill in missing bot variables, find and apply the bot's
    config file, derive the handler directories and parse the event handlers. The
    filesystem, the bundler and the dynamic imports are inputs of the model. */
module Build {
  import opened Wrappers
  import opened JsStrings
  import opened Config
  import opened EventParser

  // ---------------------------------------------------------------------------
  // Finding the config file among the directory entries

  /** The index of the last `c` in `s`, if any. */
  function LastIndexOf(s: string, c: char): (r: Option<nat>)
    ensures r.None? <==> c !in s
    ensures r.Some? ==> r.value < |s| && s[r.value] == c && c !in s[r.value + 1..]
  {
    if s == [] then None
    else if s[|s| - 1] == c then Some(|s| - 1)
    else
      var r := LastIndexOf(s[..|s| - 1], c);
      assert s == s[..|s| - 1] + [s[|s| - 1]];
      if r.Some? then
        assert s[r.value + 1..] == s[..|s| - 1][r.value + 1..] + [s[|s| - 1]];
        r
      else r
  }

  /** Node's `path.extname` on one directory entry (a name without "/"): from the last
      dot to the end, except that a name with no dot, a name whose only leading dot is
      its last one (".bashrc") and ".." have none. */
  function ExtName(f: string): string {
    match LastIndexOf(f, '.')
    case None => ""
    case Some(d) => if d == 0 || f == ".." then "" else f[d..]
  }

  /** Node's `path.basename(f, suffix)` on one directory entry: a non-empty suffix no
      longer than the name is cut off when the name ends with it, and the name equal to
      the suffix gives "". */
  function BaseName(f: string, suffix: string): string {
    if 0 < |suffix| <= |f| then
      if suffix == f then "" else if EndsWith(f, suffix) then f[..|f| - |suffix|] else f
    else f
  }

  const ConfigName := "dressed.config"

  /** `basename(f, extname(f)) === "dressed.config"`. */
  predicate IsConfigFile(f: string) {
    BaseName(f, ExtName(f)) == ConfigName
  }

  /** The config file is `dressed.config` followed by exactly one extension: a dot and
      a dot-free rest. */
  lemma ConfigFileNames(f: string)
    ensures IsConfigFile(f) <==>
              |f| > |ConfigName| && f[..|ConfigName|] == ConfigName && f[|ConfigName|] == '.'
              && '.' !in f[|ConfigName| + 1..]
  {
    var n := |ConfigName|;
    if IsConfigFile(f) {
      ConfigFileParts(f);
    }
    if |f| > n && f[..n] == ConfigName && f[n] == '.' && '.' !in f[n + 1..] {
      ConfigFileFromParts(f);
    }
  }

  lemma ConfigFileParts(f: string)
    requires IsConfigFile(f)
    ensures |f| > |ConfigName| && f[..|ConfigName|] == ConfigName && f[|ConfigName|] == '.'
            && '.' !in f[|ConfigName| + 1..]
  {
    var e := ExtName(f);
    assert e != "";
    var d := LastIndexOf(f, '.').value;
    assert e == f[d..];
    assert 0 < |e| <= |f| && e != f;
    assert f[..d] == ConfigName;
    assert |f[..d]| == d;
  }

  lemma ConfigFileFromParts(f: string)
    requires |f| > |ConfigName| && f[..|ConfigName|] == ConfigName && f[|ConfigName|] == '.'
    requires '.' !in f[|ConfigName| + 1..]
    ensures IsConfigFile(f)
  {
    var n := |ConfigName|;
    assert n == 14;
    var r := LastIndexOf(f, '.');
    assert r.Some? by {
      assert f[n] == '.';
    }
    var d := r.value;
    assert d == n;
    assert f != "..";
    assert ExtName(f) == f[n..];
    assert EndsWith(f, f[n..]);
  }

  /** An entry named exactly `dressed.config`, or with two extensions such as
      `dressed.config.d.ts`, is not the config file; `dressed.config.ts` is. */
  lemma ConfigFileExamples()
    ensures !IsConfigFile("dressed.config")
    ensures !IsConfigFile("dressed.config.d.ts")
    ensures IsConfigFile("dressed.config.ts")
  {
    BareNameIsNotConfig();
    TwoExtensionsAreNotConfig();
    OneExtensionIsConfig();
  }

  lemma BareNameIsNotConfig()
    ensures !IsConfigFile("dressed.config")
  {
    ConfigFileNames("dressed.config");
  }

  lemma TwoExtensionsAreNotConfig()
    ensures !IsConfigFile("dressed.config.d.ts")
  {
    ConfigFileNames("dressed.config.d.ts");
    assert "dressed.config.d.ts"[15..][1] == '.';
  }

  lemma OneExtensionIsConfig()
    ensures IsConfigFile("dressed.config.ts")
  {
    ConfigFileNames("dressed.config.ts");
    assert "dressed.config.ts"[..14] == ConfigName;
    assert "dressed.config.ts"[15..] == "ts";
  }

  /** The position of the first entry that is the config file, or the length of the
      listing when there is none. */
  function FirstConfigIndex(entries: seq<string>): (i: nat)
    ensures i <= |entries|
    ensures forall j :: 0 <= j < i ==> !IsConfigFile(entries[j])
    ensures i < |entries| ==> IsConfigFile(entries[i])
  {
    if entries == [] || IsConfigFile(entries[0]) then 0
    else
      var i := 1 + FirstConfigIndex(entries[1..]);
      assert forall j :: 1 <= j < |entries| ==> entries[j] == entries[1..][j - 1];
      i
  }

  /** `readdirSync(".").find(...)`: the first entry that is the config file. */
  function FindConfig(entries: seq<string>): (r: Option<string>)
    ensures r.None? <==> forall i :: 0 <= i < |entries| ==> !IsConfigFile(entries[i])
    ensures r.Some? ==> r.value == entries[FirstConfigIndex(entries)] && IsConfigFile(r.value)
  {
    var i := FirstConfigIndex(entries);
    if i < |entries| then Some(entries[i]) else None
  }

  // ---------------------------------------------------------------------------
  // The handler directories

  /** `config.build?.root ?? "src"`. An empty root is kept: `??` replaces only `null`
      and `undefined`. */
  function SourceRoot(config: ServerConfig): string {
    match config.build
    case None => "src"
    case Some(b) => b.root.GetOr("src")
  }

  /** Where `build` crawls and how the parsers name each category, in the fixed order
      commands, components, events. */
  function CategoryPaths(root: string): (r: seq<string>)
    ensures |r| == 3
  {
    [root + "/commands", root + "/components", root + "/events"]
  }

  /** The source root is the configured root when there is one, "src" otherwise, and
      the three directories lie directly under it and are distinct. */
  lemma CategoryLayout(config: ServerConfig)
    ensures var root := SourceRoot(config);
            && (config.build.Some? && config.build.value.root.Some? ==> root == config.build.value.root.value)
            && (config.build.None? || config.build.value.root.None? ==> root == "src")
            && forall k :: 0 <= k < 3 ==> StartsWith(CategoryPaths(root)[k], root + "/")
    ensures var p := CategoryPaths(SourceRoot(config));
            p[0] != p[1] && p[1] != p[2] && p[0] != p[2]
  {
    var root := SourceRoot(config);
    var p := CategoryPaths(root);
    assert p[0] == (root + "/") + "commands";
    assert p[1] == (root + "/") + "components";
    assert p[2] == (root + "/") + "events";
  }

  // ---------------------------------------------------------------------------
  // Missing bot variables

  /** The variables as `botEnv` would read them; `None` makes the getter throw. */
  datatype Env = Env(token: Option<string>, appId: Option<string>, publicKey: Option<string>)

  /** What `getApp()` resolves to: the application's id and verify key. */
  datatype App = App(id: string, verifyKey: string)

  const AppIdVar := "DISCORD_APP_ID"
  const PublicKeyVar := "DISCORD_PUBLIC_KEY"
  const FetchFailed := "Failed to fetch missing variables"
  /** The header comment of the appended block. It is written as three shorter literals
      because the verifier reasons about the characters of short literals only, and
      `HeaderIsOneLine` needs them. */
  const EnvHeader := "# Some required bot variables " + "were missing, so they've " + "been filled in automatically"

  /** The variables whose lookup fails, in the order they are checked. */
  function MissingVars(env: Env): (r: seq<string>)
    ensures AppIdVar in r <==> env.appId.None?
    ensures PublicKeyVar in r <==> env.publicKey.None?
    ensures forall i :: 0 <= i < |r| ==> r[i] == AppIdVar || r[i] == PublicKeyVar
    ensures forall i, j :: 0 <= i < j < |r| ==> r[i] == AppIdVar && r[j] == PublicKeyVar
  {
    (if env.appId.None? then [AppIdVar] else []) + (if env.publicKey.None? then [PublicKeyVar] else [])
  }

  /** `NAME="value"`. */
  function VarLine(name: string, value: string): string {
    name + "=\"" + value + "\""
  }

  /** The `.env` lines: the header, then one line per missing variable in list order. */
  function EnvLines(missing: seq<string>, app: App): seq<string> {
    [EnvHeader]
      + (if AppIdVar in missing then [VarLine(AppIdVar, app.id)] else [])
      + (if PublicKeyVar in missing then [VarLine(PublicKeyVar, app.verifyKey)] else [])
  }

  /** The text appended to `.env`. */
  function EnvAppendix(missing: seq<string>, app: App): string {
    "\n" + Join(EnvLines(missing, app), "\n")
  }

  /** The outcome of `fetchMissingVars`: the text appended to `.env`, whether the
      application was looked up remotely and whether the error was logged. */
  datatype FetchOutcome = FetchOutcome(appended: string, lookedUp: bool, failed: bool)

  function Fetch(env: Env, app: Option<App>): FetchOutcome {
    if env.token.None? then FetchOutcome("", false, true)
    else if MissingVars(env) == [] then FetchOutcome("", false, false)
    else if app.None? then FetchOutcome("", true, true)
    else FetchOutcome(EnvAppendix(MissingVars(env), app.value), true, false)
  }

  /** Without a token only the error is logged; with every variable set nothing is
      looked up or appended; a failure appends nothing; otherwise the application is
      looked up once. */
  lemma FetchCases(env: Env, app: Option<App>)
    ensures env.token.None? ==> Fetch(env, app) == FetchOutcome("", false, true)
    ensures env.token.Some? && env.appId.Some? && env.publicKey.Some? ==> Fetch(env, app) == FetchOutcome("", false, false)
    ensures Fetch(env, app).failed ==> Fetch(env, app).appended == ""
    ensures Fetch(env, app).lookedUp <==> env.token.Some? && (env.appId.None? || env.publicKey.None?)
  {
  }

  /** The appended text is a newline and then, one per line, the header and a
      `NAME="value"` line for each missing variable, in list order. */
  lemma EnvAppendixLines(env: Env, app: App)
    requires '\n' !in app.id && '\n' !in app.verifyKey
    ensures var text := EnvAppendix(MissingVars(env), app);
            && text[0] == '\n'
            && Split(text[1..], '\n') == [EnvHeader]
                 + (if env.appId.None? then [VarLine(AppIdVar, app.id)] else [])
                 + (if env.publicKey.None? then [VarLine(PublicKeyVar, app.verifyKey)] else [])
  {
    var lines := EnvLines(MissingVars(env), app);
    NoNewlineInLines(app);
    assert forall i :: 0 <= i < |lines| ==> '\n' !in lines[i];
    SplitJoin(lines, '\n');
    assert ("\n" + Join(lines, "\n"))[1..] == Join(lines, "\n");
  }

  lemma NoNewlineInLines(app: App)
    requires '\n' !in app.id && '\n' !in app.verifyKey
    ensures '\n' !in EnvHeader
    ensures '\n' !in VarLine(AppIdVar, app.id) && '\n' !in VarLine(PublicKeyVar, app.verifyKey)
  {
    HeaderIsOneLine();
    VarNamesAreOneLine();
    VarLineIsOneLine(AppIdVar, app.id);
    VarLineIsOneLine(PublicKeyVar, app.verifyKey);
  }

  lemma HeaderIsOneLine()
    ensures '\n' !in EnvHeader
  {
    PieceIsOneLine("# Some required bot variables ");
    PieceIsOneLine("were missing, so they've ");
    PieceIsOneLine("been filled in automatically");
  }

  lemma PieceIsOneLine(s: string)
    requires forall i :: 0 <= i < |s| ==> s[i] != '\n'
    ensures '\n' !in s
  {
  }

  lemma VarNamesAreOneLine()
    ensures '\n' !in AppIdVar && '\n' !in PublicKeyVar
  {
  }

  lemma VarLineIsOneLine(name: string, value: string)
    requires '\n' !in name && '\n' !in value
    ensures '\n' !in VarLine(name, value)
  {
    assert '\n' !in "=\"" && '\n' !in "\"";
  }

  /** Each variable whose getter throws is pushed, in order. */
  method CollectMissing(env: Env) returns (missing: seq<string>)
    ensures missing == MissingVars(env)
  {
    missing := [];
    if env.appId.None? {
      missing := missing + [AppIdVar];
    }
    if env.publicKey.None? {
      missing := missing + [PublicKeyVar];
    }
  }

  /** The header, then a line for each listed variable. */
  method CollectEnvLines(missing: seq<string>, app: App) returns (envLines: seq<string>)
    ensures envLines == EnvLines(missing, app)
  {
    envLines := [EnvHeader];
    if AppIdVar in missing {
      envLines := envLines + [VarLine(AppIdVar, app.id)];
    }
    if PublicKeyVar in missing {
      envLines := envLines + [VarLine(PublicKeyVar, app.verifyKey)];
    }
  }

  // ---------------------------------------------------------------------------
  // The build pipeline

  /** Where the handler entry module is written and bundled. */
  const EntriesPath := ".dressed/tmp/entries.ts"

  /** What `build` returns. `parseCommands` and `parseComponents` belong to the
      framework, so only the paths they are given are kept for those two categories. */
  datatype BuildOutput = BuildOutput(
    commandsPath: string, componentsPath: string, eventsPath: string,
    events: Parsed, config: ServerConfig)

  /** The state `build` changes: the `serverConfig` singleton, the scratch config file
      written when the bot has none, the `.env` text, the logged errors, the number of
      remote application lookups and the files handed to the bundler, in order. */
  class Workspace {
    var serverConfig: ServerConfig
    var scratchConfig: Option<ServerConfig>
    var dotEnv: string
    var errors: seq<string>
    var lookups: nat
    var bundled: seq<string>

    constructor (serverConfig: ServerConfig, dotEnv: string)
      ensures this.serverConfig == serverConfig && this.dotEnv == dotEnv
      ensures scratchConfig == None && errors == [] && lookups == 0 && bundled == []
    {
      this.serverConfig := serverConfig;
      this.dotEnv := dotEnv;
      scratchConfig := None;
      errors := [];
      lookups := 0;
      bundled := [];
    }

    /** `fetchMissingVars()`: `app` is what `getApp()` resolves to, `None` when it
        throws. Any throw is caught and reported as one logged error. */
    method FetchMissingVars(env: Env, app: Option<App>)
      modifies this
      ensures dotEnv == old(dotEnv) + Fetch(env, app).appended
      ensures lookups == old(lookups) + (if Fetch(env, app).lookedUp then 1 else 0)
      ensures errors == old(errors) + (if Fetch(env, app).failed then [FetchFailed] else [])
      ensures serverConfig == old(serverConfig) && scratchConfig == old(scratchConfig) && bundled == old(bundled)
    {
      if env.token.None? {
        errors := errors + [FetchFailed];
        return;
      }
      var missing := CollectMissing(env);
      if |missing| > 0 {
        lookups := lookups + 1;
        if app.None? {
          errors := errors + [FetchFailed];
          return;
        }
        var envLines := CollectEnvLines(missing, app.value);
        dotEnv := dotEnv + "\n" + Join(envLines, "\n");
      }
    }

    /** With a config file, bundle it, let its export be
        overridden by the argument and merge the result into `serverConfig`; without
        one, write the argument to the scratch config file. */
    method ApplyConfig(file: Option<string>, config: ServerConfig, imported: ServerConfig,
                       override: (ServerConfig, ServerConfig) -> ServerConfig)
      returns (cfg: ServerConfig)
      modifies this
      ensures cfg == (if file.Some? then override(imported, config) else config)
      ensures serverConfig == (if file.Some? then Assign(old(serverConfig), override(old(serverConfig), cfg))
                               else old(serverConfig))
      ensures scratchConfig == (if file.Some? then old(scratchConfig) else Some(config))
      ensures bundled == old(bundled) + (if file.Some? then [file.value] else [])
      ensures dotEnv == old(dotEnv) && errors == old(errors) && lookups == old(lookups)
    {
      cfg := config;
      if file.Some? {
        bundled := bundled + [file.value];
        cfg := override(imported, cfg);
        serverConfig := Assign(serverConfig, override(serverConfig, cfg));
      } else {
        scratchConfig := Some(cfg);
      }
    }

    /** `build(config)`. `entries` is the listing of the working directory, `imported`
        the default export of the bundled config file, `override` the framework's merge,
        and `handlers` the event handlers the bundled entry module exports. */
    method Build(config: ServerConfig, entries: seq<string>, imported: ServerConfig,
                 override: (ServerConfig, ServerConfig) -> ServerConfig,
                 env: Env, app: Option<App>, ns: EventTypes, handlers: seq<RawEvent>)
      returns (out: BuildOutput)
      modifies this
      ensures dotEnv == old(dotEnv) + Fetch(env, app).appended
      ensures lookups == old(lookups) + (if Fetch(env, app).lookedUp then 1 else 0)
      ensures errors == old(errors) + (if Fetch(env, app).failed then [FetchFailed] else [])
      ensures var file := FindConfig(entries);
              && out.config == (if file.Some? then override(imported, config) else config)
              && serverConfig == (if file.Some? then Assign(old(serverConfig), override(old(serverConfig), out.config))
                                  else old(serverConfig))
              && scratchConfig == (if file.Some? then old(scratchConfig) else Some(config))
              && bundled == old(bundled) + (if file.Some? then [file.value] else []) + [EntriesPath]
      ensures [out.commandsPath, out.componentsPath, out.eventsPath] == CategoryPaths(SourceRoot(out.config))
      ensures out.events == ParseEvents(ns, handlers)
    {
      FetchMissingVars(env, app);
      var file := FindConfig(entries);
      var cfg := ApplyConfig(file, config, imported, override);
      var paths := CategoryPaths(SourceRoot(cfg));
      bundled := bundled + [EntriesPath];
      out := BuildOutput(paths[0], paths[1], paths[2], ParseEvents(ns, handlers), cfg);
    }
  }
}
