/**
 * The simplified installer (`installer.py`, class `MCPInstaller`): check for
 * Node.js, back up the existing descriptor under a clock-derived name,
 * install four fixed server packages with npm inside `~/.mcp-servers`,
 * write a descriptor holding one fixed template per installed server, and
 * report success iff no ERROR was logged.
 *
 * Subprocesses are oracles of type `ProcessOutcome`; the calls handed to
 * them are recorded in the `issued` ledger. The clock is the parameter
 * `now`, the environment a map, the files a map from path to content.
 */
module Installer {
  import opened Wrappers
  import opened Logging
  import opened Text
  import opened Descriptor

  /**
   * What `subprocess.run([...])` did: the process exited with a status, or
   * the call raised — `FileNotFoundError` (`notFound`) when the executable
   * is not on the PATH, another `OSError` otherwise.
   */
  datatype ProcessOutcome = Exited(returncode: int) | Raised(notFound: bool)

  /** The argument vectors the installer hands to `subprocess.run`. */
  datatype Invocation = NodeVersion | NpmInit | NpmInstall(package: string)

  function Argv(i: Invocation): seq<string>
  {
    match i
    case NodeVersion => ["node", "--version"]
    case NpmInit => ["npm", "init", "-y"]
    case NpmInstall(p) => ["npm", "install", p]
  }

  /** Different invocations are different argument vectors. */
  lemma ArgvInjective(a: Invocation, b: Invocation)
    requires Argv(a) == Argv(b)
    ensures a == b
  {
    assert Argv(a)[0] == Argv(b)[0] && Argv(a)[1] == Argv(b)[1];
    if a.NpmInstall? {
      assert Argv(a)[2] == Argv(b)[2];
    }
  }

  /** The messages the installer passes to `log`. */
  datatype Message =
    | NodeRequired
    | NodeFound
    | BackedUp(name: string)
    | InstallingServers
    | Installing(short: string)
    | Installed(short: string)
    | FailedToInstall(server: string)
    | NothingInstalled
    | Generating
    | ConfigWritten(path: string)

  function MessageText(m: Message): string
  {
    match m
    case NodeRequired => "Node.js is required. Please install from https://nodejs.org"
    case NodeFound => "Node.js found"
    case BackedUp(name) => "Backed up config to " + name
    case InstallingServers => "Installing MCP servers..."
    case Installing(short) => "Installing " + short + "..."
    case Installed(short) => "Installed " + short
    case FailedToInstall(server) => "Failed to install " + server
    case NothingInstalled => "No servers installed successfully"
    case Generating => "Generating configuration..."
    case ConfigWritten(path) => "Configuration written to " + path
  }

  /** What `run` did: it returned its boolean, or an exception escaped it. */
  datatype RunOutcome = Returned(success: bool) | Crashed

  // ---------------------------------------------------------------- locations

  /** The directory of the descriptor, by operating system; on Windows it hangs off `APPDATA`. */
  function InstallerConfigDir(osType: string, home: string, env: Environment): string
  {
    if osType == "Darwin" then Join(home, "Library/Application Support/Claude")
    else if osType == "Windows" then Join(if "APPDATA" in env then env["APPDATA"] else "", "Claude")
    else Join(home, ".config/claude")
  }

  /** On Windows without `APPDATA` the descriptor goes to `Claude/` below the working directory. */
  lemma WindowsWithoutAppdataIsRelative(home: string, env: Environment)
    requires "APPDATA" !in env
    ensures Join(InstallerConfigDir("Windows", home, env), ConfigFileName) == "Claude/" + ConfigFileName
  {
  }

  // ---------------------------------------------------------------- the package catalog

  /** The keys of the descriptor entries, in the order the templates are written. */
  const ConfigKeys := ["filesystem", "github", "brave-search", "memory"]

  /** The last `/`-segment of a package: what `install_servers` reports as installed. */
  function ShortName(package: string): string
  {
    LastSegment(package)
  }

  /** The short name of the package behind descriptor key `key`. */
  function ServerName(key: string): string
  {
    "server-" + key
  }

  function Package(key: string): string
  {
    "@modelcontextprotocol" + "/" + ServerName(key)
  }

  /** The four packages `install_servers` installs, in order. */
  const Packages := [Package("filesystem"), Package("github"), Package("brave-search"), Package("memory")]

  /** The short name of a catalog package is the server name of its key. */
  lemma PackageShortName(key: string)
    requires '/' !in key
    ensures ShortName(Package(key)) == ServerName(key)
  {
    LastSegmentAfterSlash("@modelcontextprotocol", ServerName(key));
  }

  lemma ServerNameInjective(a: string, b: string)
    requires ServerName(a) == ServerName(b)
    ensures a == b
  {
    assert a == ServerName(a)[7..];
    assert b == ServerName(b)[7..];
  }

  /** The catalog and the templates line up: package `i` installs the server of key `i`. */
  lemma CatalogShortNames()
    ensures |Packages| == |ConfigKeys|
    ensures forall i :: 0 <= i < |Packages| ==> Packages[i] == Package(ConfigKeys[i]) && ShortName(Packages[i]) == ServerName(ConfigKeys[i])
  {
    PackageShortName("filesystem");
    PackageShortName("github");
    PackageShortName("brave-search");
    PackageShortName("memory");
  }

  // ---------------------------------------------------------------- node check

  /** What `check_node` makes of the outcome: `None` when an exception other than `FileNotFoundError` escapes. */
  function NodeStatus(o: ProcessOutcome): Option<bool>
  {
    match o
    case Exited(code) => Some(code == 0)
    case Raised(notFound) => if notFound then Some(false) else None
  }

  // ---------------------------------------------------------------- backup

  /** `claude_config_backup_<int(time.time())>.json`. */
  function BackupName(now: nat): string
  {
    "claude_config_backup_" + DecimalString(now) + ".json"
  }

  /** Two backups get the same name exactly when they are made in the same second. */
  lemma SameSecondSameBackup(a: nat, b: nat)
    ensures BackupName(a) == BackupName(b) <==> a == b
  {
    if BackupName(a) == BackupName(b) {
      var da, db := DecimalString(a), DecimalString(b);
      assert |da| == |db|;
      assert da == BackupName(a)[21..21 + |da|];
      assert db == BackupName(b)[21..21 + |db|];
      DecimalStringInjective(a, b);
    }
  }

  /** The backup never lands on the descriptor itself. */
  lemma BackupNeverConfig(configDir: string, now: nat)
    ensures Join(configDir, BackupName(now)) != Join(configDir, ConfigFileName)
  {
    assert BackupName(now)[7] == 'c';
    assert ConfigFileName[7] == 'd';
    if Join(configDir, BackupName(now)) == Join(configDir, ConfigFileName) {
      JoinInjective(configDir, BackupName(now), ConfigFileName);
    }
  }

  // ---------------------------------------------------------------- the install loop

  /** The `npm install` calls for `ps`, in order. */
  function Installs(ps: seq<string>): (r: seq<Invocation>)
    ensures |r| == |ps|
  {
    if ps == [] then [] else Installs(ps[..|ps| - 1]) + [NpmInstall(ps[|ps| - 1])]
  }

  /** The short names of the packages of `ps` whose install (outcome `os[i]` for `ps[i]`) exits with 0, in order. */
  function Shorts(ps: seq<string>, os: seq<ProcessOutcome>): seq<string>
    requires |os| == |ps|
  {
    if ps == [] then []
    else
      var n := |ps| - 1;
      Shorts(ps[..n], os[..n]) + if os[n] == Exited(0) then [ShortName(ps[n])] else []
  }

  /** The ERROR messages the loop logs for `ps`: one per non-zero exit. */
  function Failures(ps: seq<string>, os: seq<ProcessOutcome>): seq<Message>
    requires |os| == |ps|
  {
    if ps == [] then []
    else
      var n := |ps| - 1;
      Failures(ps[..n], os[..n]) + if os[n].Exited? && os[n].returncode != 0 then [FailedToInstall(ps[n])] else []
  }

  /** The first index at or after `i` whose install raises, or `|os|`. */
  function FirstRaiseFrom(os: seq<ProcessOutcome>, i: nat): (n: nat)
    requires i <= |os|
    ensures i <= n <= |os|
    decreases |os| - i
  {
    if i == |os| || os[i].Raised? then i else FirstRaiseFrom(os, i + 1)
  }

  function FirstRaise(os: seq<ProcessOutcome>): nat
  {
    FirstRaiseFrom(os, 0)
  }

  /** Every install before `FirstRaise` exits, and the one at it, if any, raises. */
  lemma {:induction false} FirstRaiseFromSpec(os: seq<ProcessOutcome>, i: nat)
    requires i <= |os|
    ensures var n := FirstRaiseFrom(os, i);
            && (forall j :: i <= j < n ==> os[j].Exited?)
            && (n < |os| ==> os[n].Raised?)
    decreases |os| - i
  {
    if i < |os| && os[i].Exited? {
      FirstRaiseFromSpec(os, i + 1);
    }
  }

  lemma InstallsSnoc(ps: seq<string>, i: nat)
    requires i < |ps|
    ensures Installs(ps[..i + 1]) == Installs(ps[..i]) + [NpmInstall(ps[i])]
  {
    assert ps[..i + 1][..i] == ps[..i];
  }

  lemma ShortsSnoc(ps: seq<string>, os: seq<ProcessOutcome>, i: nat)
    requires |os| == |ps| && i < |ps|
    ensures Shorts(ps[..i + 1], os[..i + 1]) == Shorts(ps[..i], os[..i]) + if os[i] == Exited(0) then [ShortName(ps[i])] else []
  {
    assert ps[..i + 1][..i] == ps[..i];
    assert os[..i + 1][..i] == os[..i];
  }

  lemma FailuresSnoc(ps: seq<string>, os: seq<ProcessOutcome>, i: nat)
    requires |os| == |ps| && i < |ps|
    ensures Failures(ps[..i + 1], os[..i + 1]) == Failures(ps[..i], os[..i]) + if os[i].Exited? && os[i].returncode != 0 then [FailedToInstall(ps[i])] else []
  {
    assert ps[..i + 1][..i] == ps[..i];
    assert os[..i + 1][..i] == os[..i];
  }

  /** The `i`-th call of the loop installs the `i`-th package. */
  lemma {:induction false} InstallsAt(ps: seq<string>)
    ensures forall j :: 0 <= j < |ps| ==> Installs(ps)[j] == NpmInstall(ps[j])
  {
    if ps != [] {
      InstallsAt(ps[..|ps| - 1]);
    }
  }

  /** The loop never runs `npm init`. */
  lemma {:induction false} NoInitInLoop(ps: seq<string>)
    ensures NpmInit !in Installs(ps)
  {
    if ps != [] {
      NoInitInLoop(ps[..|ps| - 1]);
    }
  }

  /** When no install raises, each package is either installed or logged as failed, exactly once. */
  lemma {:induction false} EachOutcomeOnce(ps: seq<string>, os: seq<ProcessOutcome>)
    requires |os| == |ps|
    requires forall j :: 0 <= j < |os| ==> os[j].Exited?
    ensures |Shorts(ps, os)| + |Failures(ps, os)| == |ps|
  {
    if ps != [] {
      var n := |ps| - 1;
      assert forall j :: 0 <= j < n ==> os[..n][j] == os[j];
      EachOutcomeOnce(ps[..n], os[..n]);
    }
  }

  /** Each logged failure names the package at some position whose install exited non-zero. */
  lemma {:induction false} FailuresAreFailed(ps: seq<string>, os: seq<ProcessOutcome>, m: Message)
    requires |os| == |ps| && m in Failures(ps, os)
    ensures m.FailedToInstall? && exists j :: 0 <= j < |ps| && ps[j] == m.server && os[j].Exited? && os[j].returncode != 0
  {
    var n := |ps| - 1;
    if m in Failures(ps[..n], os[..n]) {
      FailuresAreFailed(ps[..n], os[..n], m);
      var j :| 0 <= j < n && ps[..n][j] == m.server && os[..n][j].Exited? && os[..n][j].returncode != 0;
      assert ps[j] == ps[..n][j] && os[j] == os[..n][j];
    } else {
      assert ps[n] == m.server;
    }
  }

  /** Conversely, every package whose install exited non-zero is logged as failed. */
  lemma {:induction false} FailedIsLogged(ps: seq<string>, os: seq<ProcessOutcome>, j: nat)
    requires |os| == |ps| && j < |ps| && os[j].Exited? && os[j].returncode != 0
    ensures FailedToInstall(ps[j]) in Failures(ps, os)
  {
    var n := |ps| - 1;
    if j < n {
      assert ps[..n][j] == ps[j] && os[..n][j] == os[j];
      FailedIsLogged(ps[..n], os[..n], j);
    }
  }

  /** A name is reported as installed iff some package of the list with that short name exited with 0. */
  lemma {:induction false} ShortsMembers(ps: seq<string>, os: seq<ProcessOutcome>, x: string, j: nat)
    requires |os| == |ps| && j < |ps| && ShortName(ps[j]) == x
    requires forall i :: 0 <= i < |ps| && ShortName(ps[i]) == x ==> i == j
    ensures x in Shorts(ps, os) <==> os[j] == Exited(0)
  {
    var n := |ps| - 1;
    var init, last := Shorts(ps[..n], os[..n]), if os[n] == Exited(0) then [ShortName(ps[n])] else [];
    assert Shorts(ps, os) == init + last;
    if j < n {
      assert ps[..n][j] == ps[j] && os[..n][j] == os[j];
      ShortsMembers(ps[..n], os[..n], x, j);
      assert ShortName(ps[n]) != x;
    } else {
      NoShortBeyond(ps[..n], os[..n], x);
    }
  }

  /** A name no package of the list has is never reported. */
  lemma {:induction false} NoShortBeyond(ps: seq<string>, os: seq<ProcessOutcome>, x: string)
    requires |os| == |ps|
    requires forall i :: 0 <= i < |ps| ==> ShortName(ps[i]) != x
    ensures x !in Shorts(ps, os)
  {
    if ps != [] {
      var n := |ps| - 1;
      assert forall i :: 0 <= i < n ==> ps[..n][i] == ps[i];
      NoShortBeyond(ps[..n], os[..n], x);
    }
  }

  // ---------------------------------------------------------------- install_servers as a whole

  /** `npm init` raised: the `finally` restores the directory and the exception escapes. */
  predicate InitRaised(manifest: bool, init: ProcessOutcome)
  {
    !manifest && init.Raised?
  }

  /** How many `npm install` calls are made: up to and including the first that raises. */
  function Attempts(os: seq<ProcessOutcome>): (n: nat)
    ensures n <= |os|
  {
    var n := FirstRaise(os);
    if n < |os| then n + 1 else n
  }

  /** What `install_servers` returns; `None` when an exception escapes it. */
  function InstallResult(manifest: bool, init: ProcessOutcome, os: seq<ProcessOutcome>): Option<seq<string>>
    requires |os| == |Packages|
  {
    if InitRaised(manifest, init) || FirstRaise(os) < |os| then None
    else Some(Shorts(Packages, os))
  }

  /** The ERROR messages `install_servers` logs. */
  function InstallErrors(manifest: bool, init: ProcessOutcome, os: seq<ProcessOutcome>): seq<Message>
    requires |os| == |Packages|
  {
    var n := FirstRaise(os);
    if InitRaised(manifest, init) then [] else Failures(Packages[..n], os[..n])
  }

  /** The subprocess calls `install_servers` makes. */
  function InstallInvocations(manifest: bool, init: ProcessOutcome, os: seq<ProcessOutcome>): seq<Invocation>
    requires |os| == |Packages|
  {
    (if manifest then [] else [NpmInit]) + (if InitRaised(manifest, init) then [] else Installs(Packages[..Attempts(os)]))
  }

  /** `npm init` is run exactly when the module directory has no `package.json`, and at most once. */
  lemma ManifestInitialisedOnce(manifest: bool, init: ProcessOutcome, os: seq<ProcessOutcome>)
    requires |os| == |Packages|
    ensures NpmInit in InstallInvocations(manifest, init, os) <==> !manifest
    ensures !manifest ==> InstallInvocations(manifest, init, os)[0] == NpmInit
    ensures NpmInit !in InstallInvocations(manifest, init, os)[if manifest then 0 else 1..]
  {
    var loop := if InitRaised(manifest, init) then [] else Installs(Packages[..Attempts(os)]);
    NoInitInLoop(Packages[..Attempts(os)]);
    assert InstallInvocations(manifest, init, os)[if manifest then 0 else 1..] == loop;
  }

  /** Without an exception every package is attempted once, in catalog order. */
  lemma AllPackagesAttempted(manifest: bool, init: ProcessOutcome, os: seq<ProcessOutcome>)
    requires |os| == |Packages| && InstallResult(manifest, init, os).Some?
    ensures InstallInvocations(manifest, init, os) == (if manifest then [] else [NpmInit]) + Installs(Packages)
    ensures forall j :: 0 <= j < |Packages| ==> Installs(Packages)[j] == NpmInstall(Packages[j])
  {
    assert Packages[..Attempts(os)] == Packages;
    InstallsAt(Packages);
  }

  /** Without an exception every package is either reported as installed or logged as one ERROR. */
  lemma InstallCountsAddUp(manifest: bool, init: ProcessOutcome, os: seq<ProcessOutcome>)
    requires |os| == |Packages| && InstallResult(manifest, init, os).Some?
    ensures |InstallResult(manifest, init, os).value| + |InstallErrors(manifest, init, os)| == |Packages|
  {
    FirstRaiseFromSpec(os, 0);
    assert Packages[..FirstRaise(os)] == Packages && os[..FirstRaise(os)] == os;
    EachOutcomeOnce(Packages, os);
  }

  /** Each ERROR `install_servers` logs names, in full, a package whose install exited non-zero. */
  lemma InstallErrorsNameFailures(manifest: bool, init: ProcessOutcome, os: seq<ProcessOutcome>, m: Message)
    requires |os| == |Packages| && m in InstallErrors(manifest, init, os)
    ensures m.FailedToInstall? && exists j :: 0 <= j < |Packages| && Packages[j] == m.server && os[j].Exited? && os[j].returncode != 0
  {
    var n := FirstRaise(os);
    FailuresAreFailed(Packages[..n], os[..n], m);
    var j :| 0 <= j < n && Packages[..n][j] == m.server && os[..n][j].Exited? && os[..n][j].returncode != 0;
    assert Packages[j] == Packages[..n][j] && os[j] == os[..n][j];
  }

  /**
   * Each package attempted before any exception whose install exited non-zero
   * is logged as one `Failed to install` ERROR, even when a later install raises.
   */
  lemma InstallFailureLogged(manifest: bool, init: ProcessOutcome, os: seq<ProcessOutcome>, j: nat)
    requires |os| == |Packages| && !InitRaised(manifest, init)
    requires j < FirstRaise(os) && os[j].Exited? && os[j].returncode != 0
    ensures FailedToInstall(Packages[j]) in InstallErrors(manifest, init, os)
  {
    var n := FirstRaise(os);
    assert Packages[..n][j] == Packages[j] && os[..n][j] == os[j];
    FailedIsLogged(Packages[..n], os[..n], j);
  }

  /** Without an exception `install_servers` reports the server of package `i` iff its install exited with 0. */
  lemma InstalledIffExitZero(manifest: bool, init: ProcessOutcome, os: seq<ProcessOutcome>, i: nat)
    requires |os| == |Packages| && InstallResult(manifest, init, os).Some? && i < |Packages|
    ensures ServerName(ConfigKeys[i]) in InstallResult(manifest, init, os).value <==> os[i] == Exited(0)
  {
    CatalogShortNames();
    forall j | 0 <= j < |Packages| && ShortName(Packages[j]) == ServerName(ConfigKeys[i])
      ensures j == i
    {
      ServerNameInjective(ConfigKeys[j], ConfigKeys[i]);
      ConfigKeysDistinct();
    }
    ShortsMembers(Packages, os, ServerName(ConfigKeys[i]), i);
  }

  // ---------------------------------------------------------------- API keys

  const GithubPlaceholder := "REPLACE_WITH_GITHUB_TOKEN"
  const BravePlaceholder := "REPLACE_WITH_BRAVE_KEY"

  datatype ApiKeys = ApiKeys(github: string, brave: string)

  /** `os.environ.get(name, default)`. */
  function EnvGet(env: Environment, name: string, default: string): string
  {
    if name in env then env[name] else default
  }

  function DetectApiKeys(env: Environment): ApiKeys
  {
    ApiKeys(EnvGet(env, "GITHUB_TOKEN", GithubPlaceholder), EnvGet(env, "BRAVE_API_KEY", BravePlaceholder))
  }

  /**
   * A set variable is taken as it is, even when empty; the placeholder
   * appears only when the variable is unset or holds the placeholder itself.
   */
  lemma SimpleKeyLookup(env: Environment)
    ensures "GITHUB_TOKEN" in env ==> DetectApiKeys(env).github == env["GITHUB_TOKEN"]
    ensures "BRAVE_API_KEY" in env ==> DetectApiKeys(env).brave == env["BRAVE_API_KEY"]
    ensures DetectApiKeys(env).github == GithubPlaceholder <==> "GITHUB_TOKEN" !in env || env["GITHUB_TOKEN"] == GithubPlaceholder
    ensures DetectApiKeys(env).brave == BravePlaceholder <==> "BRAVE_API_KEY" !in env || env["BRAVE_API_KEY"] == BravePlaceholder
  {
  }

  // ---------------------------------------------------------------- generate_config

  function FilesystemSpec(mcpDir: string, workspace: string): LaunchSpec
  {
    LaunchSpec("node", [Join(mcpDir, FilesystemEntryPoint), workspace], None)
  }

  function GithubSpec(token: string): LaunchSpec
  {
    LaunchSpec("npx", ["-y", Package("github")], Some([EnvVar("GITHUB_PERSONAL_ACCESS_TOKEN", Str(token))]))
  }

  function BraveSearchSpec(token: string): LaunchSpec
  {
    LaunchSpec("npx", ["-y", Package("brave-search")], Some([EnvVar("BRAVE_API_KEY", Str(token))]))
  }

  function MemorySpec(mcpDir: string): LaunchSpec
  {
    LaunchSpec("node", [Join(mcpDir, MemoryEntryPoint)], None)
  }

  /** One `if "server-<key>" in installed: mcpServers[key] = spec` of `generate_config`. */
  function Guarded(d: Servers, installed: seq<string>, key: string, spec: LaunchSpec): Servers
  {
    if ServerName(key) in installed then Insert(d, key, spec) else d
  }

  /** `generate_config`: one guarded assignment per server, in the fixed order of the source. */
  function GenerateConfig(installed: seq<string>, mcpDir: string, workspace: string, keys: ApiKeys): Servers
  {
    var d1 := Guarded([], installed, "filesystem", FilesystemSpec(mcpDir, workspace));
    var d2 := Guarded(d1, installed, "github", GithubSpec(keys.github));
    var d3 := Guarded(d2, installed, "brave-search", BraveSearchSpec(keys.brave));
    Guarded(d3, installed, "memory", MemorySpec(mcpDir))
  }

  /** The four templates in the order `generate_config` writes them. */
  function Templates(mcpDir: string, workspace: string, keys: ApiKeys): seq<Entry>
  {
    [ Entry("filesystem", FilesystemSpec(mcpDir, workspace)),
      Entry("github", GithubSpec(keys.github)),
      Entry("brave-search", BraveSearchSpec(keys.brave)),
      Entry("memory", MemorySpec(mcpDir)) ]
  }

  /** The entries of `es` whose server is installed, in the order of `es`. */
  function Select(es: seq<Entry>, installed: seq<string>): seq<Entry>
  {
    if es == [] then []
    else
      var e := es[|es| - 1];
      Select(es[..|es| - 1], installed) + if ServerName(e.name) in installed then [e] else []
  }

  /** The keys of `keys` whose server is installed, in the order of `keys`. */
  function InstalledKeys(keys: seq<string>, installed: seq<string>): seq<string>
  {
    if keys == [] then []
    else
      var k := keys[|keys| - 1];
      InstalledKeys(keys[..|keys| - 1], installed) + if ServerName(k) in installed then [k] else []
  }

  lemma SelectSnoc(es: seq<Entry>, installed: seq<string>, i: nat)
    requires i < |es|
    ensures Select(es[..i + 1], installed) == Select(es[..i], installed) + if ServerName(es[i].name) in installed then [es[i]] else []
  {
    assert es[..i + 1][..i] == es[..i];
  }

  /** A guarded assignment of a key not yet present extends the selection by one template. */
  lemma GuardedSelect(t: seq<Entry>, installed: seq<string>, i: nat)
    requires i < |t| && t[i].name !in Names(t[..i])
    ensures Guarded(Select(t[..i], installed), installed, t[i].name, t[i].spec) == Select(t[..i + 1], installed)
  {
    SelectSnoc(t, installed, i);
    SelectNames(t[..i], installed);
    InstalledKeysMembers(Names(t[..i]), installed, t[i].name);
    if ServerName(t[i].name) in installed {
      InsertFresh(Select(t[..i], installed), t[i].name, t[i].spec);
    }
  }

  /** The template keys, in order. */
  lemma TemplateNames(mcpDir: string, workspace: string, keys: ApiKeys)
    ensures Names(Templates(mcpDir, workspace, keys)) == ConfigKeys
  {
    var t := Templates(mcpDir, workspace, keys);
    NamesAt(t);
  }

  /** The chain of guarded assignments is the selection of the installed templates. */
  lemma GenerateConfigSelects(installed: seq<string>, mcpDir: string, workspace: string, keys: ApiKeys)
    ensures GenerateConfig(installed, mcpDir, workspace, keys) == Select(Templates(mcpDir, workspace, keys), installed)
  {
    var t := Templates(mcpDir, workspace, keys);
    TemplateNames(mcpDir, workspace, keys);
    TemplateKeyFresh(t, 0);
    TemplateKeyFresh(t, 1);
    TemplateKeyFresh(t, 2);
    TemplateKeyFresh(t, 3);
    assert t[..0] == [];
    GuardedSelect(t, installed, 0);
    GuardedSelect(t, installed, 1);
    GuardedSelect(t, installed, 2);
    GuardedSelect(t, installed, 3);
    assert t[..4] == t;
  }

  /** The template keys are distinct. */
  lemma ConfigKeysDistinct()
    ensures Distinct(ConfigKeys)
  {
    assert |ConfigKeys[0]| == 10 && |ConfigKeys[1]| == 6 && |ConfigKeys[2]| == 12 && |ConfigKeys[3]| == 6;
    assert ConfigKeys[1][0] != ConfigKeys[3][0];
  }

  /** No template key occurs among the ones before it. */
  lemma TemplateKeyFresh(t: seq<Entry>, i: nat)
    requires Names(t) == ConfigKeys && i < |t|
    ensures t[i].name !in Names(t[..i])
  {
    NamesAt(t);
    NamesPrefix(t, i);
    ConfigKeysDistinct();
    assert t[i].name == ConfigKeys[i];
    assert Names(t[..i]) == ConfigKeys[..i];
  }

  /** The keys of a selection are the selected keys. */
  lemma {:induction false} SelectNames(es: seq<Entry>, installed: seq<string>)
    ensures Names(Select(es, installed)) == InstalledKeys(Names(es), installed)
  {
    if es != [] {
      var init, e := es[..|es| - 1], es[|es| - 1];
      SelectNames(init, installed);
      NamesSnoc(es);
      assert Names(es)[..|es| - 1] == Names(init);
      NamesAppend(Select(init, installed), if ServerName(e.name) in installed then [e] else []);
      assert Names([e]) == [e.name] + Names([]);
    }
  }

  /** A key is selected iff it is a template key and its server is installed. */
  lemma {:induction false} InstalledKeysMembers(keys: seq<string>, installed: seq<string>, k: string)
    ensures k in InstalledKeys(keys, installed) <==> k in keys && ServerName(k) in installed
  {
    if keys != [] {
      var init := keys[..|keys| - 1];
      InstalledKeysMembers(init, installed, k);
      assert keys == init + [keys[|keys| - 1]];
    }
  }

  /** Selection looks only at which servers are installed, not at how `installed` is ordered. */
  lemma {:induction false} SelectSameMembers(es: seq<Entry>, a: seq<string>, b: seq<string>)
    requires forall x :: x in a <==> x in b
    ensures Select(es, a) == Select(es, b)
  {
    if es != [] {
      SelectSameMembers(es[..|es| - 1], a, b);
    }
  }

  /** Looking a key up in a selection: the template when its server is installed, nothing otherwise. */
  lemma {:induction false} SelectLookup(es: seq<Entry>, installed: seq<string>, k: string)
    ensures Lookup(Select(es, installed), k) == if ServerName(k) in installed then Lookup(es, k) else None
  {
    if es != [] {
      var init, e := es[..|es| - 1], es[|es| - 1];
      SelectLookup(init, installed, k);
      assert es == init + [e];
      LookupSnoc(init, e, k);
      if ServerName(e.name) in installed {
        LookupSnoc(Select(init, installed), e, k);
      } else {
        assert Select(es, installed) == Select(init, installed);
      }
    }
  }

  /**
   * The descriptor lists the installed servers in the fixed order
   * filesystem, github, brave-search, memory; an entry is present iff its
   * short name was installed.
   */
  lemma ConfigFixedOrder(installed: seq<string>, mcpDir: string, workspace: string, keys: ApiKeys)
    ensures var names := Names(GenerateConfig(installed, mcpDir, workspace, keys));
            && names == InstalledKeys(ConfigKeys, installed)
            && forall k :: k in names <==> k in ConfigKeys && ServerName(k) in installed
  {
    GenerateConfigSelects(installed, mcpDir, workspace, keys);
    SelectNames(Templates(mcpDir, workspace, keys), installed);
    TemplateNames(mcpDir, workspace, keys);
    forall k ensures k in InstalledKeys(ConfigKeys, installed) <==> k in ConfigKeys && ServerName(k) in installed {
      InstalledKeysMembers(ConfigKeys, installed, k);
    }
  }

  /** Listing the same servers in another order, or with repeats, gives the same descriptor. */
  lemma ConfigIgnoresInputOrder(a: seq<string>, b: seq<string>, mcpDir: string, workspace: string, keys: ApiKeys)
    requires forall x :: x in a <==> x in b
    ensures GenerateConfig(a, mcpDir, workspace, keys) == GenerateConfig(b, mcpDir, workspace, keys)
  {
    GenerateConfigSelects(a, mcpDir, workspace, keys);
    GenerateConfigSelects(b, mcpDir, workspace, keys);
    SelectSameMembers(Templates(mcpDir, workspace, keys), a, b);
  }

  /** Looking a key up among the templates. */
  lemma TemplatesLookup(mcpDir: string, workspace: string, keys: ApiKeys, k: string)
    ensures Lookup(Templates(mcpDir, workspace, keys), k) ==
              if k == "filesystem" then Some(FilesystemSpec(mcpDir, workspace))
              else if k == "github" then Some(GithubSpec(keys.github))
              else if k == "brave-search" then Some(BraveSearchSpec(keys.brave))
              else if k == "memory" then Some(MemorySpec(mcpDir))
              else None
  {
    var t := Templates(mcpDir, workspace, keys);
    var t1, t2, t3 := t[1..], t[2..], t[3..];
    assert t1[0] == t[1] && t1[1..] == t2;
    assert t2[0] == t[2] && t2[1..] == t3;
    assert t3[0] == t[3] && t3[1..] == [];
    assert Lookup(t3, k) == if k == "memory" then Some(MemorySpec(mcpDir)) else None;
    assert Lookup(t2, k) == if k == "brave-search" then Some(BraveSearchSpec(keys.brave)) else Lookup(t3, k);
    assert Lookup(t1, k) == if k == "github" then Some(GithubSpec(keys.github)) else Lookup(t2, k);
  }

  /**
   * Each installed server gets its template: filesystem and memory are
   * started with `node` from the module directory and have no `env`; github
   * and brave-search carry their token in `env`.
   */
  lemma ConfigTemplates(installed: seq<string>, mcpDir: string, workspace: string, keys: ApiKeys, k: string)
    ensures var found := Lookup(GenerateConfig(installed, mcpDir, workspace, keys), k);
            && (found.Some? <==> k in ConfigKeys && ServerName(k) in installed)
            && (found.Some? && (k == "filesystem" || k == "memory") ==> found.value.command == "node" && found.value.env.None?)
            && (found.Some? && k == "filesystem" ==> found.value.args == [Join(mcpDir, FilesystemEntryPoint), workspace])
            && (found.Some? && k == "memory" ==> found.value.args == [Join(mcpDir, MemoryEntryPoint)])
            && (found.Some? && k == "github" ==> found.value.env == Some([EnvVar("GITHUB_PERSONAL_ACCESS_TOKEN", Str(keys.github))]))
            && (found.Some? && k == "brave-search" ==> found.value.env == Some([EnvVar("BRAVE_API_KEY", Str(keys.brave))]))
  {
    GenerateConfigSelects(installed, mcpDir, workspace, keys);
    SelectLookup(Templates(mcpDir, workspace, keys), installed, k);
    TemplatesLookup(mcpDir, workspace, keys, k);
  }

  /** End to end: after a clean install, a descriptor entry exists iff its package installed. */
  lemma ConfiguredIffInstalled(manifest: bool, init: ProcessOutcome, outcomes: seq<ProcessOutcome>,
                               mcpDir: string, workspace: string, keys: ApiKeys, i: nat)
    requires |outcomes| == |Packages| && InstallResult(manifest, init, outcomes).Some? && i < |ConfigKeys|
    ensures ConfigKeys[i] in Names(GenerateConfig(InstallResult(manifest, init, outcomes).value, mcpDir, workspace, keys))
            <==> outcomes[i] == Exited(0)
  {
    InstalledIffExitZero(manifest, init, outcomes, i);
    ConfigFixedOrder(InstallResult(manifest, init, outcomes).value, mcpDir, workspace, keys);
  }

  // ---------------------------------------------------------------- run

  /** Where `__init__` puts things: the module directory, the workspace, the descriptor's directory and path. */
  datatype Layout = Layout(mcpDir: string, workspace: string, configDir: string, configPath: string)

  function InstallerLayout(osType: string, home: string, env: Environment): Layout
  {
    var configDir := InstallerConfigDir(osType, home, env);
    Layout(Join(home, ".mcp-servers"), Join(home, "claude-mcp-workspace"), configDir, Join(configDir, ConfigFileName))
  }

  /** Where `backup_config` copies the descriptor at clock reading `now`. */
  function BackupPath(l: Layout, now: nat): string
  {
    Join(l.configDir, BackupName(now))
  }

  /** The state `run` changes: the files, the ERROR ledger and the subprocess calls. */
  datatype Snapshot = Snapshot(files: map<string, FileData>, errors: seq<Message>, issued: seq<Invocation>)

  /** A state together with what `run` did. */
  datatype Step = Step(state: Snapshot, outcome: RunOutcome)

  /**
   * `run` once `install_servers` has returned `names`: an ERROR and false
   * when nothing installed; otherwise the descriptor is written and the
   * result is whether the ERROR ledger is empty.
   */
  function Finish(l: Layout, s: Snapshot, names: seq<string>, env: Environment): Step
  {
    if names == [] then Step(Snapshot(s.files, s.errors + [NothingInstalled], s.issued), Returned(false))
    else
      var config := GenerateConfig(names, l.mcpDir, l.workspace, DetectApiKeys(env));
      Step(Snapshot(s.files[l.configPath := Written(config)], s.errors, s.issued), Returned(s.errors == []))
  }

  /** The state after `install_servers`: its ERRORs and subprocess calls appended. */
  function AfterInstallServers(l: Layout, s: Snapshot, init: ProcessOutcome, os: seq<ProcessOutcome>): Snapshot
    requires |os| == |Packages|
  {
    var manifest := Join(l.mcpDir, "package.json") in s.files;
    Snapshot(s.files, s.errors + InstallErrors(manifest, init, os), s.issued + InstallInvocations(manifest, init, os))
  }

  /** `run` from the install on: nothing more when an exception escapes `install_servers`, otherwise `Finish`. */
  function AfterInstall(l: Layout, s: Snapshot, init: ProcessOutcome, os: seq<ProcessOutcome>, env: Environment): Step
    requires |os| == |Packages|
  {
    match InstallResult(Join(l.mcpDir, "package.json") in s.files, init, os)
    case None => Step(AfterInstallServers(l, s, init, os), Crashed)
    case Some(names) => Finish(l, AfterInstallServers(l, s, init, os), names, env)
  }

  /** `run` as a whole: the Node.js gate, then the backup, then `AfterInstall`. */
  function RunSpec(l: Layout, s: Snapshot, node: ProcessOutcome, now: nat, init: ProcessOutcome, os: seq<ProcessOutcome>, env: Environment): Step
    requires |os| == |Packages|
  {
    var checked := s.issued + [NodeVersion];
    match NodeStatus(node)
    case None => Step(Snapshot(s.files, s.errors, checked), Crashed)
    case Some(found) =>
      if !found then Step(Snapshot(s.files, s.errors + [NodeRequired], checked), Returned(false))
      else AfterInstall(l, Snapshot(AfterBackup(s.files, l.configPath, BackupPath(l, now)), s.errors, checked), init, os, env)
  }

  /** Without Node.js nothing is backed up, installed or written, and the run does not succeed. */
  lemma NoNodeNoChanges(l: Layout, s: Snapshot, node: ProcessOutcome, now: nat, init: ProcessOutcome, os: seq<ProcessOutcome>, env: Environment)
    requires |os| == |Packages| && NodeStatus(node) != Some(true)
    ensures var r := RunSpec(l, s, node, now, init, os, env);
            && r.state.files == s.files
            && r.state.issued == s.issued + [NodeVersion]
            && r.outcome != Returned(true)
            && (NodeStatus(node) == Some(false) <==> r.outcome == Returned(false))
            && (NodeStatus(node) == Some(false) ==> r.state.errors == s.errors + [NodeRequired])
  {
  }

  /**
   * Once Node.js is found, an existing descriptor is copied to the backup
   * before anything else, and the copy survives the rest of the run.
   */
  lemma BackupSurvivesRun(l: Layout, s: Snapshot, node: ProcessOutcome, now: nat, init: ProcessOutcome, os: seq<ProcessOutcome>, env: Environment)
    requires |os| == |Packages| && NodeStatus(node) == Some(true)
    requires l.configPath == Join(l.configDir, ConfigFileName)
    ensures var r := RunSpec(l, s, node, now, init, os, env);
            && (l.configPath in s.files ==> BackupPath(l, now) in r.state.files && r.state.files[BackupPath(l, now)] == s.files[l.configPath])
            && (forall p :: p != l.configPath && p != BackupPath(l, now) ==> (p in r.state.files <==> p in s.files))
  {
    BackupNeverConfig(l.configDir, now);
  }

  /** When nothing installs, the run fails after the backup and the descriptor is not written. */
  lemma NothingInstalledNoConfig(l: Layout, s: Snapshot, node: ProcessOutcome, now: nat, init: ProcessOutcome, os: seq<ProcessOutcome>, env: Environment)
    requires |os| == |Packages| && NodeStatus(node) == Some(true)
    requires InstallResult(Join(l.mcpDir, "package.json") in AfterBackup(s.files, l.configPath, BackupPath(l, now)), init, os) == Some([])
    ensures var r := RunSpec(l, s, node, now, init, os, env);
            && r.outcome == Returned(false)
            && r.state.files == AfterBackup(s.files, l.configPath, BackupPath(l, now))
            && r.state.errors[|r.state.errors| - 1] == NothingInstalled
  {
  }

  /**
   * A run succeeds iff Node.js was found, something installed, the
   * descriptor was written and no ERROR is on the ledger.
   */
  lemma RunSucceedsIff(l: Layout, s: Snapshot, node: ProcessOutcome, now: nat, init: ProcessOutcome, os: seq<ProcessOutcome>, env: Environment)
    requires |os| == |Packages|
    ensures var r := RunSpec(l, s, node, now, init, os, env);
            var backedUp := AfterBackup(s.files, l.configPath, BackupPath(l, now));
            var result := InstallResult(Join(l.mcpDir, "package.json") in backedUp, init, os);
            r.outcome == Returned(true) <==>
              && NodeStatus(node) == Some(true)
              && result.Some? && result.value != []
              && r.state.files == backedUp[l.configPath := Written(GenerateConfig(result.value, l.mcpDir, l.workspace, DetectApiKeys(env)))]
              && r.state.errors == []
  {
    var backedUp := AfterBackup(s.files, l.configPath, BackupPath(l, now));
    var result := InstallResult(Join(l.mcpDir, "package.json") in backedUp, init, os);
    if NodeStatus(node) == Some(true) && result.Some? && result.value != [] {
      var config := Written(GenerateConfig(result.value, l.mcpDir, l.workspace, DetectApiKeys(env)));
      assert backedUp[l.configPath := config][l.configPath] == config;
    }
  }

  // ---------------------------------------------------------------- main

  /** `main`'s exit status: 0 in test mode or after a successful run, 1 otherwise (an escaped exception included). */
  function ExitCode(test: bool, run: RunOutcome): int
  {
    if test || run == Returned(true) then 0 else 1
  }

  // ---------------------------------------------------------------- the installer object

  class MCPInstaller {
    const layout: Layout
    /** The messages logged at level ERROR, in order. */
    var errors: seq<Message>
    /** The process's working directory. */
    var cwd: string
    /** Every argument vector handed to `subprocess.run`, in order. */
    var issued: seq<Invocation>
    /** The files the installer reads and writes: path to content. */
    var files: map<string, FileData>

    constructor (osType: string, home: string, env: Environment, cwd: string, files: map<string, FileData>)
      ensures layout == InstallerLayout(osType, home, env)
      ensures this.cwd == cwd && this.files == files
      ensures errors == [] && issued == []
    {
      layout := InstallerLayout(osType, home, env);
      this.cwd := cwd;
      this.files := files;
      errors := [];
      issued := [];
    }

    /** The ledger part of `log`: a message goes to `errors` iff its level is ERROR. */
    method Log(message: Message, level: Level)
      modifies this`errors
      ensures errors == old(errors) + (if level == Error then [message] else [])
      ensures level != Error ==> errors == old(errors)
    {
      if level == Error {
        errors := errors + [message];
      }
    }

    /** `check_node`: true iff `node --version` exits with 0; a missing executable is false, another exception escapes (`None`). */
    method CheckNode(outcome: ProcessOutcome) returns (found: Option<bool>)
      modifies this`issued
      ensures issued == old(issued) + [NodeVersion]
      ensures found == Some(true) <==> outcome == Exited(0)
      ensures found.None? <==> outcome.Raised? && !outcome.notFound
      ensures found == NodeStatus(outcome)
    {
      issued := issued + [NodeVersion];
      match outcome
      case Exited(code) => found := Some(code == 0);
      case Raised(notFound) => found := if notFound then Some(false) else None;
    }

    /** `backup_config`: copies the descriptor to a name made from the clock, when it exists. */
    method BackupConfig(now: nat)
      modifies this`files, this`errors
      ensures files == AfterBackup(old(files), layout.configPath, BackupPath(layout, now))
      ensures errors == old(errors)
    {
      if layout.configPath in files {
        var backup := BackupPath(layout, now);
        files := files[backup := files[layout.configPath]];
        Log(BackedUp(BackupName(now)), Info);
      }
    }

    /** One pass of the loop: announce, run `npm install`, record the result; `None` when the call raises. */
    method InstallOne(package: string, outcome: ProcessOutcome) returns (ok: Option<bool>)
      modifies this`issued, this`errors
      ensures issued == old(issued) + [NpmInstall(package)]
      ensures errors == old(errors) + if outcome.Exited? && outcome.returncode != 0 then [FailedToInstall(package)] else []
      ensures ok.None? <==> outcome.Raised?
      ensures ok == Some(true) <==> outcome == Exited(0)
    {
      Log(Installing(ShortName(package)), Info);
      issued := issued + [NpmInstall(package)];
      match outcome
      case Raised(_) =>
        ok := None;
      case Exited(code) =>
        if code == 0 {
          Log(Installed(ShortName(package)), Success);
        } else {
          Log(FailedToInstall(package), Error);
        }
        ok := Some(code == 0);
    }

    /** The `for server in servers` loop, `os[i]` being what installing `ps[i]` does; `raised` when an install call raises, which ends the loop. */
    method InstallEach(ps: seq<string>, os: seq<ProcessOutcome>) returns (installed: seq<string>, raised: bool)
      requires |os| == |ps|
      modifies this`issued, this`errors
      ensures var n := FirstRaise(os);
              && raised == (n < |ps|)
              && installed == Shorts(ps[..n], os[..n])
              && errors == old(errors) + Failures(ps[..n], os[..n])
              && issued == old(issued) + Installs(ps[..if raised then n + 1 else n])
    {
      installed := [];
      var i := 0;
      while i < |ps|
        invariant 0 <= i <= |ps|
        invariant FirstRaiseFrom(os, i) == FirstRaise(os)
        invariant installed == Shorts(ps[..i], os[..i])
        invariant errors == old(errors) + Failures(ps[..i], os[..i])
        invariant issued == old(issued) + Installs(ps[..i])
      {
        var ok := InstallOne(ps[i], os[i]);
        InstallsSnoc(ps, i);
        if ok.None? {
          raised := true;
          return;
        }
        ShortsSnoc(ps, os, i);
        FailuresSnoc(ps, os, i);
        if ok.value {
          installed := installed + [ShortName(ps[i])];
        }
        i := i + 1;
      }
      raised := false;
      assert ps[..i] == ps && os[..i] == os;
    }

    /**
     * The body of the `try` in `install_servers`: run `npm init -y` when the
     * module directory has no `package.json`, then install every package.
     * `None` when an exception escapes.
     */
    method InitAndInstall(init: ProcessOutcome, outcomes: seq<ProcessOutcome>) returns (installed: Option<seq<string>>)
      requires |outcomes| == |Packages|
      modifies this`issued, this`errors
      ensures installed == InstallResult(Join(layout.mcpDir, "package.json") in files, init, outcomes)
      ensures Snap() == AfterInstallServers(layout, old(Snap()), init, outcomes)
    {
      var manifest := Join(layout.mcpDir, "package.json") in files;
      if !manifest {
        issued := issued + [NpmInit];
        if init.Raised? {
          return None;
        }
      }
      installed := InstallCatalog(outcomes);
    }

    /** The loop of `install_servers` over the whole catalog, once `npm init` (if any) has not raised. */
    method InstallCatalog(outcomes: seq<ProcessOutcome>) returns (installed: Option<seq<string>>)
      requires |outcomes| == |Packages|
      modifies this`issued, this`errors
      ensures installed == InstallResult(true, Exited(0), outcomes)
      ensures errors == old(errors) + InstallErrors(true, Exited(0), outcomes)
      ensures issued == old(issued) + InstallInvocations(true, Exited(0), outcomes)
    {
      var names, raised := InstallEach(Packages, outcomes);
      installed := if raised then None else Some(names);
      assert Packages[..|Packages|] == Packages && outcomes[..|outcomes|] == outcomes;
    }

    /**
     * `install_servers`: enter the module directory, do `InitAndInstall`,
     * and return to the original directory on every exit path.
     */
    method InstallServers(init: ProcessOutcome, outcomes: seq<ProcessOutcome>) returns (installed: Option<seq<string>>)
      requires |outcomes| == |Packages|
      modifies this`cwd, this`issued, this`errors
      ensures cwd == old(cwd)
      ensures installed == InstallResult(Join(layout.mcpDir, "package.json") in files, init, outcomes)
      ensures Snap() == AfterInstallServers(layout, old(Snap()), init, outcomes)
    {
      var original := cwd;
      cwd := layout.mcpDir;
      installed := InitAndInstall(init, outcomes);
      cwd := original;
    }

    /** `write_config`: the descriptor file now holds `config`. */
    method WriteConfig(config: Servers)
      modifies this`files, this`errors
      ensures files == old(files)[layout.configPath := Written(config)]
      ensures errors == old(errors)
    {
      files := files[layout.configPath := Written(config)];
      Log(ConfigWritten(layout.configPath), Success);
    }

    /** The part of the object's state `run` changes. */
    function Snap(): Snapshot
      reads this
    {
      Snapshot(files, errors, issued)
    }

    /** The end of `run`: gate on what was installed, write the descriptor. */
    method Configure(installed: seq<string>, env: Environment) returns (outcome: RunOutcome)
      modifies this`files, this`errors
      ensures Step(Snap(), outcome) == Finish(layout, old(Snap()), installed, env)
    {
      if installed == [] {
        Log(NothingInstalled, Error);
        return Returned(false);
      }
      Log(Generating, Info);
      var config := GenerateConfig(installed, layout.mcpDir, layout.workspace, DetectApiKeys(env));
      WriteConfig(config);
      outcome := Returned(errors == []);
    }

    /** The part of `run` after the backup: install, then `Configure` unless an exception escaped. */
    method InstallAndConfigure(init: ProcessOutcome, outcomes: seq<ProcessOutcome>, env: Environment) returns (outcome: RunOutcome)
      requires |outcomes| == |Packages|
      modifies this`files, this`errors, this`issued, this`cwd
      ensures cwd == old(cwd)
      ensures Step(Snap(), outcome) == AfterInstall(layout, old(Snap()), init, outcomes, env)
    {
      Log(InstallingServers, Info);
      var installed := InstallServers(init, outcomes);
      if installed.None? {
        return Crashed;
      }
      outcome := Configure(installed.value, env);
    }

    /** The part of `run` once Node.js is found: the backup, then `InstallAndConfigure`. */
    method BackupAndInstall(now: nat, init: ProcessOutcome, outcomes: seq<ProcessOutcome>, env: Environment) returns (outcome: RunOutcome)
      requires |outcomes| == |Packages|
      modifies this`files, this`errors, this`issued, this`cwd
      ensures cwd == old(cwd)
      ensures Step(Snap(), outcome) == AfterInstall(layout, Snapshot(AfterBackup(old(files), layout.configPath, BackupPath(layout, now)), old(errors), old(issued)), init, outcomes, env)
    {
      Log(NodeFound, Success);
      BackupConfig(now);
      outcome := InstallAndConfigure(init, outcomes, env);
    }

    /** `run`: the Node.js gate, the backup, then `InstallAndConfigure`. */
    method Run(node: ProcessOutcome, now: nat, init: ProcessOutcome, outcomes: seq<ProcessOutcome>, env: Environment)
      returns (outcome: RunOutcome)
      requires |outcomes| == |Packages|
      modifies this`files, this`errors, this`issued, this`cwd
      ensures cwd == old(cwd)
      ensures Step(Snap(), outcome) == RunSpec(layout, old(Snap()), node, now, init, outcomes, env)
    {
      var found := CheckNode(node);
      if found.None? {
        return Crashed;
      }
      if !found.value {
        Log(NodeRequired, Error);
        return Returned(false);
      }
      outcome := BackupAndInstall(now, init, outcomes, env);
    }
  }

  /**
   * The gating of `run` and `main` together: outside test mode the exit
   * status is 0 exactly when Node.js was found, the install raised nothing
   * and installed something, and no ERROR was logged before or during the
   * install; a missing Node.js or an exception escaping the install gives 1.
   */
  lemma RunGating(test: bool, l: Layout, s: Snapshot, node: ProcessOutcome, now: nat, init: ProcessOutcome, os: seq<ProcessOutcome>, env: Environment)
    requires |os| == |Packages|
    ensures var manifest := Join(l.mcpDir, "package.json") in AfterBackup(s.files, l.configPath, BackupPath(l, now));
            var result := InstallResult(manifest, init, os);
            var code := ExitCode(test, RunSpec(l, s, node, now, init, os, env).outcome);
            && (code == 0 <==> test || (NodeStatus(node) == Some(true) && result.Some? && result.value != []
                                       && s.errors == [] && InstallErrors(manifest, init, os) == []))
            && (code == 0 || code == 1)
            && (!test && NodeStatus(node) != Some(true) ==> code == 1)
            && (!test && NodeStatus(node) == Some(true) && result.None? ==> code == 1)
  {
    var backedUp := AfterBackup(s.files, l.configPath, BackupPath(l, now));
    var manifest := Join(l.mcpDir, "package.json") in backedUp;
    var result := InstallResult(manifest, init, os);
    var r := RunSpec(l, s, node, now, init, os, env);
    RunSucceedsIff(l, s, node, now, init, os, env);
    if NodeStatus(node) == Some(true) && result.Some? && result.value != [] {
      var after := AfterInstallServers(l, Snapshot(backedUp, s.errors, s.issued + [NodeVersion]), init, os);
      assert r == Finish(l, after, result.value, env);
      assert r.state.errors == s.errors + InstallErrors(manifest, init, os);
    }
  }
}
