/**
 * The advanced installer (`MCPQuickstart`): credential discovery over ranked
 * sources, the six-module install loop with required/optional severities,
 * synthesis of the `mcpServers` descriptor, and the path-derived backup.
 * Every outside effect is an input: the environment, what each shell command
 * did, what each dotfile holds, and the md5-derived number of a path.
 */
module AdvancedSetup {
  import opened Wrappers
  import opened Logging
  import opened Text
  import opened Scanner
  import opened Descriptor

  /** What `subprocess.run(cmd, shell=True, ..., timeout=30)` did: it completed, or it raised (a timeout, say). */
  datatype CommandOutcome = Completed(returncode: int, stdout: string, stderr: string) | Raised(reason: string)

  /** A dotfile as `exists()` and `read_text()` find it. */
  datatype Dotfile = Absent | Unreadable | Readable(text: string)

  /** A shell command the installer hands to `run_command`; `CommandLine` is its exact text. */
  datatype Command = GitTokenQuery | NpmInit | NpmInstall(package: string)

  function CommandLine(c: Command): string
  {
    match c
    case GitTokenQuery => "git config --global github.token"
    case NpmInit => "npm init -y"
    case NpmInstall(package) => "npm install " + package + " --silent"
  }

  /** A message the installer logs at ERROR or WARNING level; `MessageText` is its exact wording. */
  datatype Message =
    | CommandFailed(stderr: string)
    | ExecutionFailed(reason: string)
    | RequiredFailure(name: string)
    | OptionalSkipped(name: string)

  function MessageText(m: Message): string
  {
    match m
    case CommandFailed(stderr) => "Command failed: " + stderr
    case ExecutionFailed(reason) => "Command execution failed: " + reason
    case RequiredFailure(name) => "Failed to install required server: " + name
    case OptionalSkipped(name) => "Optional server " + name + " skipped"
  }

  predicate CommandSucceeded(o: CommandOutcome)
  {
    o.Completed? && o.returncode == 0
  }

  /** The stdout `run_command` hands back: empty when the command raised. */
  function CommandStdout(o: CommandOutcome): string
  {
    if o.Completed? then o.stdout else ""
  }

  /** The ERROR `run_command` itself logs: one when the command raised. */
  function CommandErrors(o: CommandOutcome): seq<Message>
  {
    if o.Raised? then [ExecutionFailed(o.reason)] else []
  }

  /** The WARNING `run_command` itself logs: one for a non-zero exit in verbose mode. */
  function CommandWarnings(o: CommandOutcome, verbose: bool): seq<Message>
  {
    if o.Completed? && o.returncode != 0 && verbose then [CommandFailed(o.stderr)] else []
  }

  // ---------------------------------------------------------------- configuration directory

  /**
   * The directory `__init__` picks for `claude_desktop_config.json`; `None`
   * stands for the `KeyError` that `os.environ["APPDATA"]` raises on Windows
   * when the variable is unset.
   */
  function AdvancedConfigDir(osType: string, home: string, env: Environment): (r: Option<string>)
    ensures r.None? <==> osType == "Windows" && "APPDATA" !in env
    ensures osType == "Windows" && "APPDATA" in env ==> r == Some(Join(env["APPDATA"], "Claude"))
  {
    if osType == "Darwin" then Some(Join(Join(Join(home, "Library"), "Application Support"), "Claude"))
    else if osType == "Windows" then (if "APPDATA" in env then Some(Join(env["APPDATA"], "Claude")) else None)
    else Some(Join(Join(home, ".config"), "claude"))
  }

  // ---------------------------------------------------------------- credentials

  datatype Credential = GithubToken | BraveKey | OpenaiKey | AnthropicKey

  const AllCredentials: set<Credential> := {GithubToken, BraveKey, OpenaiKey, AnthropicKey}

  /** The order of `env_mappings`. */
  const CredentialOrder: seq<Credential> := [GithubToken, BraveKey, OpenaiKey, AnthropicKey]

  /** The order of the dotfile `patterns`; `anthropic_key` has none. */
  const PatternOrder: seq<Credential> := [GithubToken, BraveKey, OpenaiKey]

  /** Every key is visited by the environment loop, and exactly the keys with a pattern by the dotfile loop. */
  lemma OrdersComplete()
    ensures forall k: Credential :: k in AllCredentials
    ensures forall k: Credential :: k in CredentialOrder
    ensures forall k: Credential :: HasPattern(k) <==> k in PatternOrder
  {
    forall k: Credential
      ensures k in AllCredentials && k in CredentialOrder && (HasPattern(k) <==> k in PatternOrder)
    {
      match k
      case GithubToken => assert CredentialOrder[0] == k && PatternOrder[0] == k;
      case BraveKey => assert CredentialOrder[1] == k && PatternOrder[1] == k;
      case OpenaiKey => assert CredentialOrder[2] == k && PatternOrder[2] == k;
      case AnthropicKey =>
        assert CredentialOrder[3] == k;
        assert forall i :: 0 <= i < |PatternOrder| ==> PatternOrder[i] != k;
    }
  }

  /** The `keys` dict: `None` is Python's `None`. */
  type Keys = map<Credential, Option<string>>

  function EnvAliases(k: Credential): seq<string>
  {
    match k
    case GithubToken => ["GITHUB_TOKEN", "GH_TOKEN", "GITHUB_PERSONAL_ACCESS_TOKEN"]
    case BraveKey => ["BRAVE_API_KEY", "BRAVE_SEARCH_KEY"]
    case OpenaiKey => ["OPENAI_API_KEY"]
    case AnthropicKey => ["ANTHROPIC_API_KEY", "CLAUDE_API_KEY"]
  }

  predicate HasPattern(k: Credential)
  {
    k != AnthropicKey
  }

  /** The alternatives `(?:A|B)` in front of `=` of the key's dotfile pattern. */
  function PatternNames(k: Credential): seq<string>
  {
    match k
    case GithubToken => ["GITHUB_TOKEN", "GH_TOKEN"]
    case BraveKey => ["BRAVE_API_KEY"]
    case OpenaiKey => ["OPENAI_API_KEY"]
    case AnthropicKey => []
  }

  /** Python truthiness of a `keys` value: `None` and `""` are falsy. */
  predicate Truthy(v: Option<string>)
  {
    v.Some? && v.value != ""
  }

  /** `os.environ.get(name)` is truthy: set, and not to the empty string. */
  predicate IsSet(env: Environment, name: string)
  {
    name in env && env[name] != ""
  }

  /** The first alias from position `j` on that is set, or `|aliases|` when none is. */
  function FirstSetIndex(env: Environment, aliases: seq<string>, j: nat): (r: nat)
    requires j <= |aliases|
    ensures j <= r <= |aliases|
    ensures r < |aliases| ==> IsSet(env, aliases[r])
    ensures forall i :: j <= i < r ==> !IsSet(env, aliases[i])
    decreases |aliases| - j
  {
    if j == |aliases| || IsSet(env, aliases[j]) then j else FirstSetIndex(env, aliases, j + 1)
  }

  /** The value the environment loop stores for a key: that of its first set alias. */
  function FirstSetAlias(env: Environment, aliases: seq<string>): (r: Option<string>)
    ensures r.Some? ==> r.value != ""
  {
    var i := FirstSetIndex(env, aliases, 0);
    if i < |aliases| then Some(env[aliases[i]]) else None
  }

  /** Aliases are tried in list order: the first set one wins; an alias set to "" counts as unset. */
  lemma EnvAliasPrecedence(env: Environment, aliases: seq<string>, i: nat)
    requires i < |aliases| && IsSet(env, aliases[i])
    requires forall j :: 0 <= j < i ==> !IsSet(env, aliases[j])
    ensures FirstSetAlias(env, aliases) == Some(env[aliases[i]])
  {
    var r := FirstSetIndex(env, aliases, 0);
    assert !(r < i) && !(i < r);
  }

  /** Aliases after the winning one are not consulted: their values cannot change the result. */
  lemma LaterAliasesIgnored(env: Environment, env': Environment, aliases: seq<string>, i: nat)
    requires i < |aliases| && IsSet(env, aliases[i])
    requires forall j :: 0 <= j < i ==> !IsSet(env, aliases[j])
    requires forall j :: 0 <= j <= i ==> (aliases[j] in env <==> aliases[j] in env')
    requires forall j :: 0 <= j <= i && aliases[j] in env ==> env'[aliases[j]] == env[aliases[j]]
    ensures FirstSetAlias(env', aliases) == FirstSetAlias(env, aliases)
  {
    EnvAliasPrecedence(env, aliases, i);
    EnvAliasPrecedence(env', aliases, i);
  }

  /** The token `git config` contributes: its stripped stdout, when it succeeded and that is non-empty. */
  function GitCandidate(o: CommandOutcome): Option<string>
  {
    if CommandSucceeded(o) && Strip(o.stdout, Whitespace) != "" then Some(Strip(o.stdout, Whitespace)) else None
  }

  /** `.bashrc`, `.zshrc`, `.env`, `.config/gh/hosts.yml` under the home directory, in that order. */
  function DotfilePaths(home: string): seq<string>
  {
    [Join(home, ".bashrc"), Join(home, ".zshrc"), Join(home, ".env"), Join(Join(Join(home, ".config"), "gh"), "hosts.yml")]
  }

  /** What one dotfile would assign to a key: a missing or unreadable file assigns nothing. */
  function FileCandidate(f: Dotfile, k: Credential): Option<string>
  {
    if f.Readable? && HasPattern(k) then ExtractAssignment(f.text, PatternNames(k)) else None
  }

  /** What each of the files assigns to `k`, in visiting order. */
  function FileCandidates(k: Credential, paths: seq<string>, read: string -> Dotfile): (r: seq<Option<string>>)
    ensures |r| == |paths|
  {
    if paths == [] then []
    else FileCandidates(k, paths[..|paths| - 1], read) + [FileCandidate(read(paths[|paths| - 1]), k)]
  }

  /** Candidate `i` is what file `i` assigns to `k`: each file is scanned on its own, in visiting order. */
  lemma {:induction false} FileCandidateAt(k: Credential, paths: seq<string>, read: string -> Dotfile, i: nat)
    requires i < |paths|
    ensures FileCandidates(k, paths, read)[i] == FileCandidate(read(paths[i]), k)
  {
    if i < |paths| - 1 {
      FileCandidateAt(k, paths[..|paths| - 1], read, i);
      FileCandidateFront(k, paths, read, i);
    }
  }

  /** The step of `FileCandidateAt`: an earlier file keeps its candidate when one more file is scanned. */
  lemma FileCandidateFront(k: Credential, paths: seq<string>, read: string -> Dotfile, i: nat)
    requires i < |paths| - 1
    requires FileCandidates(k, paths[..|paths| - 1], read)[i] == FileCandidate(read(paths[..|paths| - 1][i]), k)
    ensures FileCandidates(k, paths, read)[i] == FileCandidate(read(paths[i]), k)
  {
    assert paths[..|paths| - 1][i] == paths[i];
  }

  /** One guarded assignment `if not keys[key]: ... keys[key] = value`. */
  function Step(current: Option<string>, candidate: Option<string>): Option<string>
  {
    if !Truthy(current) && candidate.Some? then candidate else current
  }

  /** The guarded assignments of one key over the files, in order. */
  function Fold(prior: Option<string>, candidates: seq<Option<string>>): Option<string>
  {
    if candidates == [] then prior
    else Step(Fold(prior, candidates[..|candidates| - 1]), candidates[|candidates| - 1])
  }

  /**
   * First-match-wins over ranked candidates: the first non-empty value;
   * failing that `Some("")` when some source matched with an empty value;
   * otherwise `None`.
   */
  function FirstMatch(candidates: seq<Option<string>>): Option<string>
  {
    if candidates == [] then None
    else if Truthy(candidates[0]) then candidates[0]
    else
      var rest := FirstMatch(candidates[1..]);
      if rest.None? then candidates[0] else rest
  }

  /** Appending one more lower-ranked source is one guarded assignment. */
  lemma {:induction false} FirstMatchSnoc(s: seq<Option<string>>, x: Option<string>)
    ensures FirstMatch(s + [x]) == Step(FirstMatch(s), x)
  {
    if s != [] {
      assert (s + [x])[1..] == s[1..] + [x];
      FirstMatchSnoc(s[1..], x);
    }
  }

  /** The guarded assignments over the files compute first-match-wins over every source consulted before and after. */
  lemma {:induction false} FoldIsFirstMatch(s: seq<Option<string>>, c: seq<Option<string>>)
    ensures Fold(FirstMatch(s), c) == FirstMatch(s + c)
  {
    if c == [] {
      assert s + c == s;
    } else {
      var c' := c[..|c| - 1];
      FoldIsFirstMatch(s, c');
      FirstMatchSnoc(s + c', c[|c| - 1]);
      assert s + c == (s + c') + [c[|c| - 1]];
    }
  }

  /** The first truthy candidate wins, whatever the lower-ranked ones hold. */
  lemma {:induction false} FirstMatchPicksFirstTruthy(c: seq<Option<string>>, i: nat)
    requires i < |c| && Truthy(c[i])
    requires forall j :: 0 <= j < i ==> !Truthy(c[j])
    ensures FirstMatch(c) == c[i]
  {
    if i > 0 {
      FirstMatchPicksFirstTruthy(c[1..], i - 1);
    }
  }

  /** With no truthy candidate the result is falsy: `""` if some source matched, `None` otherwise. */
  lemma {:induction false} FirstMatchWithoutTruthy(c: seq<Option<string>>)
    requires forall j :: 0 <= j < |c| ==> !Truthy(c[j])
    ensures FirstMatch(c) == if exists j :: 0 <= j < |c| && c[j].Some? then Some("") else None
  {
    if c != [] {
      FirstMatchWithoutTruthy(c[1..]);
      assert forall j :: 1 <= j < |c| ==> c[1..][j - 1] == c[j];
    }
  }

  /** Once a key holds a non-empty value, no later file overwrites it. */
  lemma {:induction false} FoundKeyNeverOverwritten(prior: Option<string>, c: seq<Option<string>>)
    requires Truthy(prior)
    ensures Fold(prior, c) == prior
  {
    if c != [] {
      FoundKeyNeverOverwritten(prior, c[..|c| - 1]);
    }
  }

  /**
   * The ranked sources of one key: its environment aliases, then (GitHub
   * token only) `git config`, then what each dotfile assigns to it.
   */
  function Candidates(k: Credential, env: Environment, git: CommandOutcome, files: seq<Option<string>>): seq<Option<string>>
  {
    [FirstSetAlias(env, EnvAliases(k))]
    + (if k == GithubToken then [GitCandidate(git)] else [])
    + (if HasPattern(k) then files else [])
  }

  /** First-match-wins over the ranked sources of `k`, given what the dotfiles assign to it. */
  function ResolveFrom(k: Credential, env: Environment, git: CommandOutcome, files: seq<Option<string>>): Option<string>
  {
    FirstMatch(Candidates(k, env, git, files))
  }

  /** The value `detect_api_keys` reports for `k`. */
  function Resolve(k: Credential, env: Environment, git: CommandOutcome, home: string, read: string -> Dotfile): Option<string>
  {
    ResolveFrom(k, env, git, FileCandidates(k, DotfilePaths(home), read))
  }

  /** A set environment alias decides the key, regardless of `git config` and of every dotfile. */
  lemma EnvironmentWins(k: Credential, env: Environment, git: CommandOutcome, files: seq<Option<string>>)
    requires FirstSetAlias(env, EnvAliases(k)).Some?
    ensures ResolveFrom(k, env, git, files) == FirstSetAlias(env, EnvAliases(k))
  {
    FirstMatchPicksFirstTruthy(Candidates(k, env, git, files), 0);
  }

  /** With no environment alias set, a usable `git config` answer decides the GitHub token, whatever the dotfiles hold. */
  lemma GitConfigBeforeDotfiles(env: Environment, git: CommandOutcome, files: seq<Option<string>>)
    requires FirstSetAlias(env, EnvAliases(GithubToken)).None?
    requires GitCandidate(git).Some?
    ensures ResolveFrom(GithubToken, env, git, files) == GitCandidate(git)
  {
    FirstMatchPicksFirstTruthy(Candidates(GithubToken, env, git, files), 1);
  }

  /**
   * Failing the earlier sources, the first dotfile (in visiting order) whose
   * scan yields a non-empty value decides the key; files that yielded only
   * `""` do not stop the search.
   */
  lemma FirstDotfileWins(k: Credential, env: Environment, git: CommandOutcome, files: seq<Option<string>>, f: nat)
    requires HasPattern(k)
    requires FirstSetAlias(env, EnvAliases(k)).None?
    requires k == GithubToken ==> GitCandidate(git).None?
    requires f < |files| && Truthy(files[f])
    requires forall g :: 0 <= g < f ==> !Truthy(files[g])
    ensures ResolveFrom(k, env, git, files) == files[f]
  {
    var c := Candidates(k, env, git, files);
    var offset := if k == GithubToken then 2 else 1;
    assert c[offset..] == files;
    FirstMatchPicksFirstTruthy(c, offset + f);
  }

  /**
   * `detect_api_keys` itself: when neither the environment nor (for the
   * GitHub token) `git config` answers, the first of `.bashrc`, `.zshrc`,
   * `.env`, `hosts.yml` under the home directory whose scan assigns a
   * non-empty value to the key decides it.
   */
  lemma FirstScannedDotfileWins(k: Credential, env: Environment, git: CommandOutcome, home: string, read: string -> Dotfile, f: nat)
    requires HasPattern(k)
    requires FirstSetAlias(env, EnvAliases(k)).None?
    requires k == GithubToken ==> GitCandidate(git).None?
    requires f < 4 && Truthy(FileCandidate(read(DotfilePaths(home)[f]), k))
    requires forall g :: 0 <= g < f ==> !Truthy(FileCandidate(read(DotfilePaths(home)[g]), k))
    ensures Resolve(k, env, git, home, read) == FileCandidate(read(DotfilePaths(home)[f]), k)
  {
    var paths := DotfilePaths(home);
    var files := FileCandidates(k, paths, read);
    forall g | 0 <= g <= f
      ensures files[g] == FileCandidate(read(paths[g]), k)
    {
      FileCandidateAt(k, paths, read, g);
    }
    FirstDotfileWins(k, env, git, files, f);
  }

  /** `anthropic_key` has no dotfile pattern: it comes from the environment or nowhere. */
  lemma AnthropicKeyOnlyFromEnvironment(env: Environment, git: CommandOutcome, files: seq<Option<string>>)
    ensures ResolveFrom(AnthropicKey, env, git, files) == FirstSetAlias(env, EnvAliases(AnthropicKey))
  {
    var e := FirstSetAlias(env, EnvAliases(AnthropicKey));
    assert Candidates(AnthropicKey, env, git, files) == [e] + [] + [];
    assert [e] + [] + [] == [e];
    assert [e][1..] == [];
    assert FirstMatch([e]) == e;
  }

  /** What the environment loop and the `git config` step leave in `keys[k]`. */
  function AfterGit(k: Credential, env: Environment, git: CommandOutcome): Option<string>
  {
    var e := FirstSetAlias(env, EnvAliases(k));
    if k == GithubToken then Step(e, GitCandidate(git)) else e
  }

  /** The guarded assignments one file makes for the keys `ks`, in that order. */
  function ScanKeys(keys: Keys, file: Dotfile, ks: seq<Credential>): Keys
    requires keys.Keys == AllCredentials
  {
    if ks == [] then keys
    else
      var r := ScanKeys(keys, file, ks[..|ks| - 1]);
      var k := ks[|ks| - 1];
      r[k := Step(if k in r then r[k] else None, FileCandidate(file, k))]
  }

  lemma {:induction false} ScanKeysDomain(keys: Keys, file: Dotfile, ks: seq<Credential>)
    requires keys.Keys == AllCredentials
    ensures ScanKeys(keys, file, ks).Keys == AllCredentials
  {
    if ks != [] {
      ScanKeysDomain(keys, file, ks[..|ks| - 1]);
      OrdersComplete();
    }
  }

  /** With no key repeated, a key in `ks` gets one guarded assignment and every other key keeps its value. */
  lemma {:induction false} ScanKeysAt(keys: Keys, file: Dotfile, ks: seq<Credential>, k: Credential)
    requires keys.Keys == AllCredentials && Distinct(ks)
    ensures ScanKeys(keys, file, ks).Keys == AllCredentials
    ensures ScanKeys(keys, file, ks)[k] == if k in ks then Step(keys[k], FileCandidate(file, k)) else keys[k]
  {
    ScanKeysDomain(keys, file, ks);
    OrdersComplete();
    if ks != [] {
      var init := ks[..|ks| - 1];
      assert Distinct(init) by {
        forall i, j | 0 <= i < j < |init| ensures init[i] != init[j] {
          assert init[i] == ks[i] && init[j] == ks[j];
        }
      }
      ScanKeysAt(keys, file, init, k);
      ScanKeysDomain(keys, file, init);
      assert ks == init + [ks[|ks| - 1]];
      assert ks[|ks| - 1] !in init by {
        forall i | 0 <= i < |init| ensures init[i] != ks[|ks| - 1] {
          assert init[i] == ks[i];
        }
      }
    }
  }

  /** The dotfile loop over `patterns` gives each key with a pattern its guarded assignment. */
  lemma ScanKeysPatterns(keys: Keys, file: Dotfile)
    requires keys.Keys == AllCredentials
    ensures ScanKeys(keys, file, PatternOrder).Keys == AllCredentials
    ensures forall k :: k in keys ==> ScanKeys(keys, file, PatternOrder)[k] == Step(keys[k], FileCandidate(file, k))
  {
    ScanKeysDomain(keys, file, PatternOrder);
    OrdersComplete();
    assert Distinct(PatternOrder);
    forall k | k in keys
      ensures ScanKeys(keys, file, PatternOrder)[k] == Step(keys[k], FileCandidate(file, k))
    {
      ScanKeysAt(keys, file, PatternOrder, k);
    }
  }

  /** The three passes of `detect_api_keys` (environment, `git config`, dotfiles) compute first-match-wins. */
  lemma PassesResolve(k: Credential, env: Environment, git: CommandOutcome, files: seq<Option<string>>)
    ensures (if HasPattern(k) then Fold(AfterGit(k, env, git), files) else AfterGit(k, env, git)) == ResolveFrom(k, env, git, files)
  {
    var e := FirstSetAlias(env, EnvAliases(k));
    assert FirstMatch([e]) == e by {
      assert [e][1..] == [];
    }
    var g := if k == GithubToken then [GitCandidate(git)] else [];
    if k == GithubToken {
      FirstMatchSnoc([e], GitCandidate(git));
    }
    assert AfterGit(k, env, git) == FirstMatch([e] + g);
    if HasPattern(k) {
      FoldIsFirstMatch([e] + g, files);
      assert Candidates(k, env, git, files) == [e] + g + files;
    } else {
      assert Candidates(k, env, git, files) == [e] + g;
    }
  }

  /** The environment pass, the `git config` step and the dotfile pass, composed, resolve every key. */
  lemma DetectPassesResolve(env: Environment, git: CommandOutcome, home: string, read: string -> Dotfile,
                            fromEnv: Keys, fromGit: Keys, found: Keys)
    requires fromEnv.Keys == AllCredentials
    requires forall k :: k in fromEnv ==> fromEnv[k] == FirstSetAlias(env, EnvAliases(k))
    requires fromGit == fromEnv[GithubToken := Step(fromEnv[GithubToken], GitCandidate(git))]
    requires found.Keys == AllCredentials
    requires forall k :: k in found ==> found[k] == if HasPattern(k) then Fold(fromGit[k], FileCandidates(k, DotfilePaths(home), read)) else fromGit[k]
    ensures forall k :: k in found ==> found[k] == Resolve(k, env, git, home, read)
  {
    forall k | k in found
      ensures found[k] == Resolve(k, env, git, home, read)
    {
      assert fromGit[k] == AfterGit(k, env, git);
      PassesResolve(k, env, git, FileCandidates(k, DotfilePaths(home), read));
    }
  }

  /** An unreadable file is treated exactly like a missing one: both contribute nothing. */
  lemma {:induction false} UnreadableLikeAbsent(k: Credential, paths: seq<string>, read: string -> Dotfile, read': string -> Dotfile)
    requires forall p :: p in paths ==> read'(p) == read(p) || (read'(p) == Absent && read(p) == Unreadable)
    ensures FileCandidates(k, paths, read') == FileCandidates(k, paths, read)
  {
    if paths != [] {
      UnreadableLikeAbsent(k, paths[..|paths| - 1], read, read');
      assert paths[|paths| - 1] in paths;
    }
  }

  /** Whatever a file holds, the candidate of another file stays the same: one file cannot disturb the scan of the others. */
  lemma {:induction false} FilesScannedIndependently(k: Credential, paths: seq<string>, read: string -> Dotfile, read': string -> Dotfile, f: nat)
    requires f < |paths|
    requires read'(paths[f]) == read(paths[f])
    ensures FileCandidates(k, paths, read')[f] == FileCandidates(k, paths, read)[f]
  {
    if f < |paths| - 1 {
      FilesScannedIndependently(k, paths[..|paths| - 1], read, read', f);
    }
  }

  // ---------------------------------------------------------------- install catalog

  datatype ModuleSpec = ModuleSpec(name: string, package: string, required: bool)

  const Catalog: seq<ModuleSpec> := [
    ModuleSpec("filesystem", "@modelcontextprotocol/server-filesystem", true),
    ModuleSpec("github", "@modelcontextprotocol/server-github", true),
    ModuleSpec("brave-search", "@modelcontextprotocol/server-brave-search", true),
    ModuleSpec("memory", "@modelcontextprotocol/server-memory", true),
    ModuleSpec("puppeteer", "@modelcontextprotocol/server-puppeteer", false),
    ModuleSpec("sqlite", "@modelcontextprotocol/server-sqlite", false)
  ]

  function ModuleNames(c: seq<ModuleSpec>): (r: seq<string>)
    ensures |r| == |c| && forall i :: 0 <= i < |c| ==> r[i] == c[i].name
  {
    if c == [] then [] else ModuleNames(c[..|c| - 1]) + [c[|c| - 1].name]
  }

  /** One install command per catalog entry, in catalog order, whatever the outcomes. */
  function InstallCommands(c: seq<ModuleSpec>): seq<Command>
  {
    if c == [] then [] else InstallCommands(c[..|c| - 1]) + [NpmInstall(c[|c| - 1].package)]
  }

  /** Entry `i` of the catalog gets exactly the `i`-th install command. */
  lemma {:induction false} InstallCommandsOnePerEntry(c: seq<ModuleSpec>)
    ensures |InstallCommands(c)| == |c|
    ensures forall i :: 0 <= i < |c| ==> InstallCommands(c)[i] == NpmInstall(c[i].package)
  {
    if c != [] {
      InstallCommandsOnePerEntry(c[..|c| - 1]);
    }
  }

  /** The names the loop appends to `installed`: those of the entries whose install succeeded, in catalog order. */
  function InstalledNames(c: seq<ModuleSpec>, o: seq<CommandOutcome>): seq<string>
    requires |o| == |c|
  {
    if c == [] then []
    else
      InstalledNames(c[..|c| - 1], o[..|o| - 1])
      + (if CommandSucceeded(o[|o| - 1]) then [c[|c| - 1].name] else [])
  }

  /** What the attempt at one entry appends to `errors`. */
  function EntryErrors(m: ModuleSpec, o: CommandOutcome): seq<Message>
  {
    CommandErrors(o) + (if !CommandSucceeded(o) && m.required then [RequiredFailure(m.name)] else [])
  }

  /** What the attempt at one entry appends to `warnings`. */
  function EntryWarnings(m: ModuleSpec, o: CommandOutcome, verbose: bool): seq<Message>
  {
    CommandWarnings(o, verbose) + (if !CommandSucceeded(o) && !m.required then [OptionalSkipped(m.name)] else [])
  }

  function InstallErrors(c: seq<ModuleSpec>, o: seq<CommandOutcome>): seq<Message>
    requires |o| == |c|
  {
    if c == [] then [] else InstallErrors(c[..|c| - 1], o[..|o| - 1]) + EntryErrors(c[|c| - 1], o[|o| - 1])
  }

  function InstallWarnings(c: seq<ModuleSpec>, o: seq<CommandOutcome>, verbose: bool): seq<Message>
    requires |o| == |c|
  {
    if c == [] then [] else InstallWarnings(c[..|c| - 1], o[..|o| - 1], verbose) + EntryWarnings(c[|c| - 1], o[|o| - 1], verbose)
  }

  /** The failure messages of the entries whose `required` flag is `required`, in catalog order. */
  function FailureMessages(c: seq<ModuleSpec>, o: seq<CommandOutcome>, required: bool): (r: seq<Message>)
    requires |o| == |c|
  {
    if c == [] then []
    else
      var m := c[|c| - 1];
      FailureMessages(c[..|c| - 1], o[..|o| - 1], required)
      + (if !CommandSucceeded(o[|o| - 1]) && m.required == required
         then [if required then RequiredFailure(m.name) else OptionalSkipped(m.name)] else [])
  }

  /** The ledgers after one more catalog entry, each on top of what it held before the loop. */
  lemma InstalledSnoc(c: seq<ModuleSpec>, o: seq<CommandOutcome>, i: nat, names: seq<string>)
    requires |o| == |c| && i < |c|
    requires names == InstalledNames(c[..i], o[..i])
    ensures names + (if CommandSucceeded(o[i]) then [c[i].name] else []) == InstalledNames(c[..i + 1], o[..i + 1])
  {
    assert c[..i + 1][..i] == c[..i];
    assert o[..i + 1][..i] == o[..i];
  }

  lemma CommandsSnoc(c: seq<ModuleSpec>, i: nat, cmds: seq<Command>, cmds0: seq<Command>)
    requires i < |c|
    requires cmds == cmds0 + InstallCommands(c[..i])
    ensures cmds + [NpmInstall(c[i].package)] == cmds0 + InstallCommands(c[..i + 1])
  {
    assert c[..i + 1][..i] == c[..i];
  }

  lemma ErrorsSnoc(c: seq<ModuleSpec>, o: seq<CommandOutcome>, i: nat, errs: seq<Message>, errs0: seq<Message>)
    requires |o| == |c| && i < |c|
    requires errs == errs0 + InstallErrors(c[..i], o[..i])
    ensures errs + EntryErrors(c[i], o[i]) == errs0 + InstallErrors(c[..i + 1], o[..i + 1])
  {
    assert c[..i + 1][..i] == c[..i];
    assert o[..i + 1][..i] == o[..i];
    assert InstallErrors(c[..i + 1], o[..i + 1]) == InstallErrors(c[..i], o[..i]) + EntryErrors(c[i], o[i]);
  }

  lemma WarningsSnoc(c: seq<ModuleSpec>, o: seq<CommandOutcome>, i: nat, verbose: bool, warns: seq<Message>, warns0: seq<Message>)
    requires |o| == |c| && i < |c|
    requires warns == warns0 + InstallWarnings(c[..i], o[..i], verbose)
    ensures warns + EntryWarnings(c[i], o[i], verbose) == warns0 + InstallWarnings(c[..i + 1], o[..i + 1], verbose)
  {
    assert c[..i + 1][..i] == c[..i];
    assert o[..i + 1][..i] == o[..i];
    assert InstallWarnings(c[..i + 1], o[..i + 1], verbose) == InstallWarnings(c[..i], o[..i], verbose) + EntryWarnings(c[i], o[i], verbose);
  }

  /** The ledgers of the whole list are those of its full prefix. */
  lemma InstallWhole(c: seq<ModuleSpec>, o: seq<CommandOutcome>, verbose: bool)
    requires |o| == |c|
    ensures InstalledNames(c[..|c|], o[..|c|]) == InstalledNames(c, o)
    ensures InstallCommands(c[..|c|]) == InstallCommands(c)
    ensures InstallErrors(c[..|c|], o[..|c|]) == InstallErrors(c, o)
    ensures InstallWarnings(c[..|c|], o[..|c|], verbose) == InstallWarnings(c, o, verbose)
  {
    assert c[..|c|] == c && o[..|c|] == o;
  }

  /** With distinct names, an entry's name is in `installed` exactly when its install succeeded. */
  lemma {:induction false} InstalledNamesExact(c: seq<ModuleSpec>, o: seq<CommandOutcome>, i: nat)
    requires |o| == |c| && Distinct(ModuleNames(c)) && i < |c|
    ensures c[i].name in InstalledNames(c, o) <==> CommandSucceeded(o[i])
  {
    var n := |c| - 1;
    var c', o' := c[..n], o[..n];
    assert Distinct(ModuleNames(c')) by {
      assert forall j :: 0 <= j < n ==> ModuleNames(c')[j] == ModuleNames(c)[j];
    }
    InstalledNamesOnlyFromCatalog(c', o');
    if i < n {
      InstalledNamesExact(c', o', i);
      assert c[i].name != c[n].name by {
        assert ModuleNames(c)[i] != ModuleNames(c)[n];
      }
    } else {
      assert c[n].name !in ModuleNames(c') by {
        forall j | 0 <= j < n ensures ModuleNames(c')[j] != c[n].name {
          assert ModuleNames(c)[j] != ModuleNames(c)[n];
        }
      }
    }
  }

  /** Everything in `installed` is the name of a catalog entry. */
  lemma {:induction false} InstalledNamesOnlyFromCatalog(c: seq<ModuleSpec>, o: seq<CommandOutcome>)
    requires |o| == |c|
    ensures forall x :: x in InstalledNames(c, o) ==> x in ModuleNames(c)
  {
    if c != [] {
      InstalledNamesOnlyFromCatalog(c[..|c| - 1], o[..|o| - 1]);
      assert forall x :: x in ModuleNames(c[..|c| - 1]) ==> x in ModuleNames(c) by {
        assert forall j :: 0 <= j < |c| - 1 ==> ModuleNames(c[..|c| - 1])[j] == ModuleNames(c)[j];
      }
    }
  }

  /**
   * When no command raised and the run is not verbose, each failure adds
   * exactly one ledger entry: an ERROR for a required entry, a WARNING for
   * an optional one, in catalog order.
   */
  lemma {:induction false} QuietLedger(c: seq<ModuleSpec>, o: seq<CommandOutcome>)
    requires |o| == |c| && forall i :: 0 <= i < |o| ==> o[i].Completed?
    ensures InstallErrors(c, o) == FailureMessages(c, o, true)
    ensures InstallWarnings(c, o, false) == FailureMessages(c, o, false)
  {
    if c != [] {
      QuietLedger(c[..|c| - 1], o[..|o| - 1]);
    }
  }

  /** Entries with distinct names give an `installed` list without duplicates. */
  lemma {:induction false} InstalledNamesDistinct(c: seq<ModuleSpec>, o: seq<CommandOutcome>)
    requires |o| == |c| && Distinct(ModuleNames(c))
    ensures Distinct(InstalledNames(c, o))
  {
    if c != [] {
      var n := |c| - 1;
      var c', o' := c[..n], o[..n];
      assert Distinct(ModuleNames(c')) by {
        assert forall j :: 0 <= j < n ==> ModuleNames(c')[j] == ModuleNames(c)[j];
      }
      InstalledNamesDistinct(c', o');
      InstalledNamesOnlyFromCatalog(c', o');
      assert c[n].name !in ModuleNames(c') by {
        forall j | 0 <= j < n ensures ModuleNames(c')[j] != c[n].name {
          assert ModuleNames(c)[j] != ModuleNames(c)[n];
        }
      }
    }
  }

  /** The six module names are distinct. */
  lemma CatalogNamesDistinct()
    ensures Distinct(ModuleNames(Catalog))
  {
    var names := ModuleNames(Catalog);
    assert names == ["filesystem", "github", "brave-search", "memory", "puppeteer", "sqlite"];
  }

  // ---------------------------------------------------------------- descriptor synthesis

  /** The names `server_configs` has a template for (`puppeteer` has none). */
  const TemplateNames: set<string> := {"filesystem", "github", "brave-search", "memory", "sqlite"}

  function WorkspaceDir(home: string): string
  {
    Join(home, "claude-mcp-workspace")
  }

  /** `api_keys.get(key, placeholder)` as JSON: `None` becomes `null`; the placeholder only when the key is absent. */
  function KeyValue(keys: Keys, k: Credential, placeholder: string): Json
  {
    if k !in keys then Str(placeholder)
    else match keys[k]
      case None => Null
      case Some(v) => Str(v)
  }

  /** The static launch template of a module, if `server_configs` has one. */
  function Template(name: string, home: string, mcpDir: string, keys: Keys): (t: Option<LaunchSpec>)
    ensures t.Some? <==> name in TemplateNames
  {
    if name == "filesystem" then
      Some(LaunchSpec("node", [Join(mcpDir, FilesystemEntryPoint), WorkspaceDir(home)], Some([])))
    else if name == "github" then
      Some(LaunchSpec("npx", ["-y", "@modelcontextprotocol/server-github"],
        Some([EnvVar("GITHUB_PERSONAL_ACCESS_TOKEN", KeyValue(keys, GithubToken, "PLACEHOLDER_GITHUB_TOKEN"))])))
    else if name == "brave-search" then
      Some(LaunchSpec("npx", ["-y", "@modelcontextprotocol/server-brave-search"],
        Some([EnvVar("BRAVE_API_KEY", KeyValue(keys, BraveKey, "PLACEHOLDER_BRAVE_KEY"))])))
    else if name == "memory" then
      Some(LaunchSpec("node", [Join(mcpDir, MemoryEntryPoint)], Some([])))
    else if name == "sqlite" then
      Some(LaunchSpec("node", [Join(mcpDir, SqliteEntryPoint), Join(WorkspaceDir(home), "data.db")], Some([])))
    else None
  }

  /** The names in `installed` that have a template, in `installed` order. */
  function TemplatedNames(installed: seq<string>): seq<string>
  {
    if installed == [] then []
    else
      var last := installed[|installed| - 1];
      TemplatedNames(installed[..|installed| - 1]) + (if last in TemplateNames then [last] else [])
  }

  /** Exactly the installed names that have a template are kept. */
  lemma {:induction false} TemplatedNamesMembers(installed: seq<string>)
    ensures forall x :: x in TemplatedNames(installed) <==> x in installed && x in TemplateNames
  {
    if installed != [] {
      var init := installed[..|installed| - 1];
      TemplatedNamesMembers(init);
      assert forall x :: x in installed <==> x in init || x == installed[|installed| - 1];
    }
  }

  /** What one installed name contributes to the first loop: its template, if it has one. */
  function TemplatedEntry(name: string, home: string, mcpDir: string, keys: Keys): seq<Entry>
  {
    match Template(name, home, mcpDir, keys)
    case None => []
    case Some(t) => [Entry(name, t)]
  }

  /** The assignments of the first loop, in `installed` order. */
  function TemplatedEntries(installed: seq<string>, home: string, mcpDir: string, keys: Keys): seq<Entry>
  {
    if installed == [] then []
    else
      TemplatedEntries(installed[..|installed| - 1], home, mcpDir, keys)
      + TemplatedEntry(installed[|installed| - 1], home, mcpDir, keys)
  }

  lemma TemplatedEntriesSnoc(installed: seq<string>, i: nat, home: string, mcpDir: string, keys: Keys)
    requires i < |installed|
    ensures TemplatedEntries(installed[..i + 1], home, mcpDir, keys)
         == TemplatedEntries(installed[..i], home, mcpDir, keys) + TemplatedEntry(installed[i], home, mcpDir, keys)
  {
    assert installed[..i + 1][..i] == installed[..i];
  }

  /** The first loop assigns exactly the installed names with a template, in `installed` order. */
  lemma {:induction false} TemplatedEntriesNames(installed: seq<string>, home: string, mcpDir: string, keys: Keys)
    ensures Names(TemplatedEntries(installed, home, mcpDir, keys)) == TemplatedNames(installed)
  {
    if installed != [] {
      var n := |installed| - 1;
      TemplatedEntriesNames(installed[..n], home, mcpDir, keys);
      NamesAppend(TemplatedEntries(installed[..n], home, mcpDir, keys), TemplatedEntry(installed[n], home, mcpDir, keys));
    }
  }

  /** Every assignment of the first loop stores the module's own template. */
  lemma {:induction false} TemplatedEntriesSpecs(installed: seq<string>, home: string, mcpDir: string, keys: Keys)
    ensures forall i :: 0 <= i < |TemplatedEntries(installed, home, mcpDir, keys)| ==>
      Some(TemplatedEntries(installed, home, mcpDir, keys)[i].spec) == Template(TemplatedEntries(installed, home, mcpDir, keys)[i].name, home, mcpDir, keys)
  {
    if installed != [] {
      var n := |installed| - 1;
      TemplatedEntriesSpecs(installed[..n], home, mcpDir, keys);
    }
  }

  function ProjectKey(project: string): string
  {
    "project-" + BaseName(project)
  }

  function ProjectSpec(mcpDir: string, project: string): LaunchSpec
  {
    LaunchSpec("node", [Join(mcpDir, FilesystemEntryPoint), project], Some([]))
  }

  /** The assignments of the project loop, one per project. */
  function ProjectEntries(projects: seq<string>, mcpDir: string): seq<Entry>
  {
    if projects == [] then []
    else
      var last := projects[|projects| - 1];
      ProjectEntries(projects[..|projects| - 1], mcpDir) + [Entry(ProjectKey(last), ProjectSpec(mcpDir, last))]
  }

  lemma ProjectEntriesSnoc(projects: seq<string>, j: nat, mcpDir: string)
    requires j < |projects|
    ensures ProjectEntries(projects[..j + 1], mcpDir)
         == ProjectEntries(projects[..j], mcpDir) + [Entry(ProjectKey(projects[j]), ProjectSpec(mcpDir, projects[j]))]
  {
    assert projects[..j + 1][..j] == projects[..j];
  }

  /** The project loop assigns `project-<basename>` to each project's launch spec, in order. */
  lemma {:induction false} ProjectEntriesAt(projects: seq<string>, mcpDir: string)
    ensures |ProjectEntries(projects, mcpDir)| == |projects|
    ensures forall i :: 0 <= i < |projects| ==>
      ProjectEntries(projects, mcpDir)[i] == Entry(ProjectKey(projects[i]), ProjectSpec(mcpDir, projects[i]))
  {
    if projects != [] {
      var n := |projects| - 1;
      var init := projects[..n];
      ProjectEntriesAt(init, mcpDir);
      var pe := ProjectEntries(projects, mcpDir);
      assert pe == ProjectEntries(init, mcpDir) + [Entry(ProjectKey(projects[n]), ProjectSpec(mcpDir, projects[n]))];
      forall i | 0 <= i < |projects|
        ensures pe[i] == Entry(ProjectKey(projects[i]), ProjectSpec(mcpDir, projects[i]))
      {
        if i < n {
          assert projects[i] == init[i];
        }
      }
    }
  }

  /** `projects[:3]`. */
  function ShownProjects(projects: seq<string>): (r: seq<string>)
    ensures |r| == (if |projects| < 3 then |projects| else 3) && r == projects[..|r|]
  {
    if |projects| <= 3 then projects else projects[..3]
  }

  /** The `mcpServers` object `generate_claude_config` builds. */
  function ClaudeConfig(home: string, installed: seq<string>, mcpDir: string, projects: seq<string>, keys: Keys): Servers
  {
    var base := InsertAll([], TemplatedEntries(installed, home, mcpDir, keys));
    if projects != [] && "filesystem" in installed then InsertAll(base, ProjectEntries(ShownProjects(projects), mcpDir))
    else base
  }

  lemma ProjectKeysArePrefixed(projects: seq<string>, mcpDir: string, x: string)
    requires x in Names(ProjectEntries(projects, mcpDir))
    ensures |x| >= 8 && x[..8] == "project-"
  {
    ProjectEntriesAt(projects, mcpDir);
    NamesAt(ProjectEntries(projects, mcpDir));
    var i :| 0 <= i < |projects| && Names(ProjectEntries(projects, mcpDir))[i] == x;
  }

  /** No `project-` key collides with a module name. */
  lemma ProjectKeyIsNoTemplate(x: string)
    requires |x| >= 8 && x[..8] == "project-"
    ensures x !in TemplateNames
  {
    assert x[0] == "project-"[0] == 'p';
    assert "filesystem"[0] == 'f' && "github"[0] == 'g' && "brave-search"[0] == 'b';
    assert "memory"[0] == 'm' && "sqlite"[0] == 's';
  }

  lemma {:induction false} TemplatedNamesDistinct(installed: seq<string>)
    requires Distinct(installed)
    ensures Distinct(TemplatedNames(installed))
  {
    if installed != [] {
      var init := installed[..|installed| - 1];
      assert Distinct(init) by {
        assert forall j :: 0 <= j < |init| ==> init[j] == installed[j];
      }
      TemplatedNamesDistinct(init);
      TemplatedNamesMembers(init);
      assert installed[|installed| - 1] !in init;
    }
  }

  /**
   * The keys of the descriptor (installed names without duplicates): first
   * the installed names that have a template, in installed order; then, only
   * when `filesystem` is installed and `projects` is non-empty, one
   * `project-<basename>` key per distinct basename among the first three
   * projects.
   */
  lemma ClaudeConfigNames(home: string, installed: seq<string>, mcpDir: string, projects: seq<string>, keys: Keys)
    requires Distinct(installed)
    ensures Names(ClaudeConfig(home, installed, mcpDir, projects, keys))
         == TemplatedNames(installed)
            + (if projects != [] && "filesystem" in installed
               then AppendNew([], Names(ProjectEntries(ShownProjects(projects), mcpDir))) else [])
  {
    var base := TemplatedEntries(installed, home, mcpDir, keys);
    TemplatedConfigNames(home, installed, mcpDir, keys);
    if projects != [] && "filesystem" in installed {
      var pe := ProjectEntries(ShownProjects(projects), mcpDir);
      InsertAllNames(InsertAll([], base), pe);
      ProjectNamesNoTemplates(installed, ShownProjects(projects), mcpDir);
      AppendNewDisjoint(TemplatedNames(installed), Names(pe));
    }
  }

  /**
   * At the call in `run`, `installed` comes out of the install loop over the
   * catalog, so it has no duplicates and the key order above holds.
   */
  lemma InstalledConfigNames(home: string, outcomes: seq<CommandOutcome>, mcpDir: string, projects: seq<string>, keys: Keys)
    requires |outcomes| == |Catalog|
    ensures var installed := InstalledNames(Catalog, outcomes);
            Names(ClaudeConfig(home, installed, mcpDir, projects, keys))
            == TemplatedNames(installed)
               + (if projects != [] && "filesystem" in installed
                  then AppendNew([], Names(ProjectEntries(ShownProjects(projects), mcpDir))) else [])
  {
    CatalogNamesDistinct();
    InstalledNamesDistinct(Catalog, outcomes);
    ClaudeConfigNames(home, InstalledNames(Catalog, outcomes), mcpDir, projects, keys);
  }

  /** The keys the module loop leaves: the templated modules, in installation order. */
  lemma TemplatedConfigNames(home: string, installed: seq<string>, mcpDir: string, keys: Keys)
    requires Distinct(installed)
    ensures Names(InsertAll([], TemplatedEntries(installed, home, mcpDir, keys))) == TemplatedNames(installed)
  {
    var base := TemplatedEntries(installed, home, mcpDir, keys);
    InsertAllNames([], base);
    TemplatedEntriesNames(installed, home, mcpDir, keys);
    TemplatedNamesDistinct(installed);
    AppendNewDistinct([], TemplatedNames(installed));
    assert [] + TemplatedNames(installed) == TemplatedNames(installed);
  }

  /** No project key is the name of a templated module. */
  lemma ProjectNamesNoTemplates(installed: seq<string>, shown: seq<string>, mcpDir: string)
    ensures forall x :: x in Names(ProjectEntries(shown, mcpDir)) ==> x !in TemplatedNames(installed)
  {
    TemplatedNamesMembers(installed);
    forall x | x in Names(ProjectEntries(shown, mcpDir)) ensures x !in TemplatedNames(installed) {
      ProjectKeysArePrefixed(shown, mcpDir, x);
      ProjectKeyIsNoTemplate(x);
    }
  }

  /** `puppeteer` has no template and is never a key of the descriptor. */
  lemma PuppeteerNeverConfigured(home: string, installed: seq<string>, mcpDir: string, projects: seq<string>, keys: Keys)
    ensures "puppeteer" !in Names(ClaudeConfig(home, installed, mcpDir, projects, keys))
  {
    var base := TemplatedEntries(installed, home, mcpDir, keys);
    InsertAllNames([], base);
    TemplatedEntriesNames(installed, home, mcpDir, keys);
    TemplatedNamesMembers(installed);
    AppendNewMembers([], Names(base));
    var pe := ProjectEntries(ShownProjects(projects), mcpDir);
    InsertAllNames(InsertAll([], base), pe);
    AppendNewMembers(Names(InsertAll([], base)), Names(pe));
    PuppeteerIsNoProjectKey(ShownProjects(projects), mcpDir);
  }

  /** Every project key starts `pr`, and `puppeteer` does not. */
  lemma PuppeteerIsNoProjectKey(projects: seq<string>, mcpDir: string)
    ensures "puppeteer" !in Names(ProjectEntries(projects, mcpDir))
  {
    ProjectEntriesAt(projects, mcpDir);
    NamesAt(ProjectEntries(projects, mcpDir));
    var names := Names(ProjectEntries(projects, mcpDir));
    forall i | 0 <= i < |names|
      ensures names[i] != "puppeteer"
    {
      assert names[i][1] == 'r';
    }
  }

  /** An installed module with a template is configured with exactly that template. */
  lemma TemplateConfigured(home: string, installed: seq<string>, mcpDir: string, projects: seq<string>, keys: Keys, name: string)
    requires name in installed && name in TemplateNames
    ensures Lookup(ClaudeConfig(home, installed, mcpDir, projects, keys), name) == Template(name, home, mcpDir, keys)
  {
    var base := TemplatedEntries(installed, home, mcpDir, keys);
    TemplatedEntriesNames(installed, home, mcpDir, keys);
    TemplatedNamesMembers(installed);
    TemplatedEntriesSpecs(installed, home, mcpDir, keys);
    InsertAllLookup([], base, name);
    LastSpecOfTemplated(base, home, mcpDir, keys, name);
    var pe := ProjectEntries(ShownProjects(projects), mcpDir);
    InsertAllLookup(InsertAll([], base), pe, name);
    if name in Names(pe) {
      ProjectKeysArePrefixed(ShownProjects(projects), mcpDir, name);
      ProjectKeyIsNoTemplate(name);
    }
  }

  lemma {:induction false} LastSpecOfTemplated(es: seq<Entry>, home: string, mcpDir: string, keys: Keys, name: string)
    requires name in Names(es)
    requires forall i :: 0 <= i < |es| ==> Some(es[i].spec) == Template(es[i].name, home, mcpDir, keys)
    ensures Some(LastSpec(es, name)) == Template(name, home, mcpDir, keys)
  {
    if es[|es| - 1].name != name {
      NamesSnoc(es);
      LastSpecOfTemplated(es[..|es| - 1], home, mcpDir, keys, name);
    }
  }

  /**
   * An unresolved key (present in `keys` as `None`, as `detect_api_keys`
   * always leaves it) is written as JSON `null`: the `PLACEHOLDER_...`
   * defaults of `.get` are used neither for the GitHub token nor for the
   * Brave key.
   */
  lemma UnresolvedKeysAreNull(home: string, installed: seq<string>, mcpDir: string, projects: seq<string>, keys: Keys)
    requires GithubToken in keys && BraveKey in keys
    ensures "github" in installed && keys[GithubToken] == None
            ==> Lookup(ClaudeConfig(home, installed, mcpDir, projects, keys), "github")
                == Some(LaunchSpec("npx", ["-y", "@modelcontextprotocol/server-github"],
                                   Some([EnvVar("GITHUB_PERSONAL_ACCESS_TOKEN", Null)])))
    ensures "brave-search" in installed && keys[BraveKey] == None
            ==> Lookup(ClaudeConfig(home, installed, mcpDir, projects, keys), "brave-search")
                == Some(LaunchSpec("npx", ["-y", "@modelcontextprotocol/server-brave-search"],
                                   Some([EnvVar("BRAVE_API_KEY", Null)])))
  {
    if "github" in installed {
      TemplateConfigured(home, installed, mcpDir, projects, keys, "github");
    }
    if "brave-search" in installed {
      TemplateConfigured(home, installed, mcpDir, projects, keys, "brave-search");
    }
  }

  /**
   * A repeated basename among the first three projects: the key
   * `project-<basename>` holds the launch spec of the LAST such project.
   */
  lemma ProjectKeyKeepsLast(home: string, installed: seq<string>, mcpDir: string, projects: seq<string>, keys: Keys, i: nat)
    requires projects != [] && "filesystem" in installed
    requires i < |ShownProjects(projects)|
    requires forall j :: i < j < |ShownProjects(projects)| ==> BaseName(ShownProjects(projects)[j]) != BaseName(ShownProjects(projects)[i])
    ensures Lookup(ClaudeConfig(home, installed, mcpDir, projects, keys), ProjectKey(ShownProjects(projects)[i]))
         == Some(ProjectSpec(mcpDir, ShownProjects(projects)[i]))
  {
    var shown := ShownProjects(projects);
    var pe := ProjectEntries(shown, mcpDir);
    var key := ProjectKey(shown[i]);
    ProjectEntriesAt(shown, mcpDir);
    NamesAt(pe);
    assert Names(pe)[i] == key;
    InsertAllLookup(InsertAll([], TemplatedEntries(installed, home, mcpDir, keys)), pe, key);
    LastProjectSpec(shown, mcpDir, i);
  }

  lemma ProjectKeyInjective(a: string, b: string)
    ensures ProjectKey(a) == ProjectKey(b) ==> BaseName(a) == BaseName(b)
  {
    assert BaseName(a) == ProjectKey(a)[8..];
    assert BaseName(b) == ProjectKey(b)[8..];
  }

  lemma {:induction false} LastProjectSpec(ps: seq<string>, mcpDir: string, i: nat)
    requires i < |ps|
    requires forall j :: i < j < |ps| ==> BaseName(ps[j]) != BaseName(ps[i])
    ensures ProjectKey(ps[i]) in Names(ProjectEntries(ps, mcpDir))
    ensures LastSpec(ProjectEntries(ps, mcpDir), ProjectKey(ps[i])) == ProjectSpec(mcpDir, ps[i])
  {
    var pe := ProjectEntries(ps, mcpDir);
    ProjectEntriesAt(ps, mcpDir);
    NamesAt(pe);
    assert Names(pe)[i] == ProjectKey(ps[i]);
    var n := |ps| - 1;
    if i < n {
      ProjectKeyInjective(ps[n], ps[i]);
      ProjectEntriesAt(ps[..n], mcpDir);
      assert ProjectEntries(ps[..n], mcpDir) == pe[..n];
      LastProjectSpec(ps[..n], mcpDir, i);
    }
  }

  // ---------------------------------------------------------------- backup

  /** `config_file.with_suffix(".backup.<n>")`, where `n` is the md5-derived number of the path. */
  function BackupFileName(digest: nat): string
  {
    "claude_desktop_config.backup." + DecimalString(digest)
  }

  /** The backup never lands on the config file itself. */
  lemma BackupDistinctFromConfig(configDir: string, digest: nat)
    ensures Join(configDir, BackupFileName(digest)) != Join(configDir, ConfigFileName)
  {
    assert BackupFileName(digest)[22] == 'b';
    assert ConfigFileName[22] == 'j';
    if Join(configDir, BackupFileName(digest)) == Join(configDir, ConfigFileName) {
      JoinInjective(configDir, BackupFileName(digest), ConfigFileName);
    }
  }

  /**
   * The backup name depends on the path alone, so a second run copies the
   * then-current config over the first run's backup.
   */
  lemma RepeatedBackupOverwrites(files: map<string, FileData>, source: string, target: string, next: FileData)
    requires source != target && source in files
    ensures AfterBackup(AfterBackup(files, source, target)[source := next], source, target)[target] == next
  {
  }

  // ---------------------------------------------------------------- the installer object

  class Quickstart {
    const verbose: bool
    const home: string
    const configDir: string
    /** The process's working directory. */
    var cwd: string
    var errors: seq<Message>
    var warnings: seq<Message>
    /** Every shell command handed to `run_command`, in order. */
    var issued: seq<Command>
    /** The files the installer may copy: path to content. */
    var files: map<string, FileData>

    constructor (verbose: bool, osType: string, home: string, env: Environment, cwd: string, files: map<string, FileData>)
      requires AdvancedConfigDir(osType, home, env).Some?
      ensures this.verbose == verbose && this.home == home
      ensures configDir == AdvancedConfigDir(osType, home, env).value
      ensures this.cwd == cwd && this.files == files
      ensures errors == [] && warnings == [] && issued == []
    {
      this.verbose := verbose;
      this.home := home;
      this.configDir := AdvancedConfigDir(osType, home, env).value;
      this.cwd := cwd;
      this.files := files;
      errors := [];
      warnings := [];
      issued := [];
    }

    /** The ledger part of `log`: ERROR messages go to `errors`, WARNING messages to `warnings`. */
    method Log(message: Message, level: Level)
      modifies this`errors, this`warnings
      ensures errors == old(errors) + (if level == Error then [message] else [])
      ensures warnings == old(warnings) + (if level == Warning then [message] else [])
    {
      if level == Error {
        errors := errors + [message];
      } else if level == Warning {
        warnings := warnings + [message];
      }
    }

    /** `run_command`: interprets what the command did and logs as the source does. */
    method RunCommand(cmd: Command, outcome: CommandOutcome) returns (ok: bool, stdout: string)
      modifies this`issued, this`errors, this`warnings
      ensures ok == CommandSucceeded(outcome) && stdout == CommandStdout(outcome)
      ensures issued == old(issued) + [cmd]
      ensures errors == old(errors) + CommandErrors(outcome)
      ensures warnings == old(warnings) + CommandWarnings(outcome, verbose)
    {
      issued := issued + [cmd];
      match outcome
      case Completed(code, out, err) =>
        if code != 0 && verbose {
          Log(CommandFailed(err), Warning);
        }
        ok, stdout := code == 0, out;
      case Raised(reason) =>
        Log(ExecutionFailed(reason), Error);
        ok, stdout := false, "";
    }

    /**
     * `detect_api_keys`: all four keys are present; each holds the value of
     * its first matching source; `git config` is run only when no GitHub
     * alias is set in the environment.
     */
    method DetectApiKeys(env: Environment, git: CommandOutcome, read: string -> Dotfile) returns (keys: Keys)
      modifies this`issued, this`errors, this`warnings
      ensures keys.Keys == AllCredentials
      ensures forall k :: k in keys ==> keys[k] == Resolve(k, env, git, home, read)
      ensures var asked := FirstSetAlias(env, EnvAliases(GithubToken)).None?;
              && issued == old(issued) + (if asked then [GitTokenQuery] else [])
              && errors == old(errors) + (if asked then CommandErrors(git) else [])
              && warnings == old(warnings) + (if asked then CommandWarnings(git, verbose) else [])
    {
      var fromEnv := EnvironmentPass(env);
      var fromGit := GitPass(fromEnv, git);
      keys := DotfilePass(fromGit, DotfilePaths(home), read);
      DetectPassesResolve(env, git, home, read, fromEnv, fromGit, keys);
    }

    /** The `git config` step: asked only when no GitHub token was found, it fills in a non-blank answer. */
    method GitPass(keys: Keys, git: CommandOutcome) returns (found: Keys)
      requires keys.Keys == AllCredentials
      modifies this`issued, this`errors, this`warnings
      ensures found == keys[GithubToken := Step(keys[GithubToken], GitCandidate(git))]
      ensures var asked := !Truthy(keys[GithubToken]);
              && issued == old(issued) + (if asked then [GitTokenQuery] else [])
              && errors == old(errors) + (if asked then CommandErrors(git) else [])
              && warnings == old(warnings) + (if asked then CommandWarnings(git, verbose) else [])
    {
      found := keys;
      if !Truthy(keys[GithubToken]) {
        var ok, token := RunCommand(GitTokenQuery, git);
        if ok && Strip(token, Whitespace) != "" {
          found := keys[GithubToken := Some(Strip(token, Whitespace))];
        }
      }
    }

    /** `install_mcp_servers`: every catalog entry is attempted once, in order; the working directory is left in the module directory. */
    method InstallMcpServers(manifestExists: bool, initOutcome: CommandOutcome, outcomes: seq<CommandOutcome>)
      returns (installed: seq<string>, mcpDir: string)
      requires |outcomes| == |Catalog|
      modifies this`cwd, this`issued, this`errors, this`warnings
      ensures mcpDir == Join(home, ".mcp-servers") && cwd == mcpDir
      ensures installed == InstalledNames(Catalog, outcomes)
      ensures issued == old(issued) + (if manifestExists then [] else [NpmInit]) + InstallCommands(Catalog)
      ensures errors == old(errors) + (if manifestExists then [] else CommandErrors(initOutcome)) + InstallErrors(Catalog, outcomes)
      ensures warnings == old(warnings) + (if manifestExists then [] else CommandWarnings(initOutcome, verbose))
                          + InstallWarnings(Catalog, outcomes, verbose)
    {
      mcpDir := Join(home, ".mcp-servers");
      cwd := mcpDir;
      if !manifestExists {
        var _, _ := RunCommand(NpmInit, initOutcome);
      }
      installed := InstallEach(Catalog, outcomes);
    }

    /** The install loop over `modules`, one `npm install` per entry, whatever the earlier outcomes. */
    method InstallEach(modules: seq<ModuleSpec>, outcomes: seq<CommandOutcome>) returns (installed: seq<string>)
      requires |outcomes| == |modules|
      modifies this`issued, this`errors, this`warnings
      ensures installed == InstalledNames(modules, outcomes)
      ensures issued == old(issued) + InstallCommands(modules)
      ensures errors == old(errors) + InstallErrors(modules, outcomes)
      ensures warnings == old(warnings) + InstallWarnings(modules, outcomes, verbose)
    {
      installed := [];
      var i := 0;
      while i < |modules|
        invariant 0 <= i <= |modules|
        invariant installed == InstalledNames(modules[..i], outcomes[..i])
        invariant issued == old(issued) + InstallCommands(modules[..i])
        invariant errors == old(errors) + InstallErrors(modules[..i], outcomes[..i])
        invariant warnings == old(warnings) + InstallWarnings(modules[..i], outcomes[..i], verbose)
      {
        var server := modules[i];
        ghost var installed0, issued0, errors0, warnings0 := installed, issued, errors, warnings;
        var ok := InstallOne(server, outcomes[i]);
        if ok {
          installed := installed + [server.name];
        }
        InstalledSnoc(modules, outcomes, i, installed0);
        CommandsSnoc(modules, i, issued0, old(issued));
        ErrorsSnoc(modules, outcomes, i, errors0, old(errors));
        WarningsSnoc(modules, outcomes, i, verbose, warnings0, old(warnings));
        i := i + 1;
      }
      assert i == |modules|;
      InstallWhole(modules, outcomes, verbose);
    }

    /** One pass of the install loop: `npm install` of the entry's package, then the failure message its `required` flag calls for. */
    method InstallOne(server: ModuleSpec, outcome: CommandOutcome) returns (ok: bool)
      modifies this`issued, this`errors, this`warnings
      ensures ok == CommandSucceeded(outcome)
      ensures issued == old(issued) + [NpmInstall(server.package)]
      ensures errors == old(errors) + EntryErrors(server, outcome)
      ensures warnings == old(warnings) + EntryWarnings(server, outcome, verbose)
    {
      var stdout;
      ok, stdout := RunCommand(NpmInstall(server.package), outcome);
      if !ok {
        if server.required {
          Log(RequiredFailure(server.name), Error);
        } else {
          Log(OptionalSkipped(server.name), Warning);
        }
      }
    }

    /** `generate_claude_config`: builds the descriptor `ClaudeConfig` describes, by the source's two loops. */
    method GenerateClaudeConfig(installed: seq<string>, mcpDir: string, projects: seq<string>, apiKeys: Keys) returns (servers: Servers)
      ensures servers == ClaudeConfig(home, installed, mcpDir, projects, apiKeys)
    {
      servers := TemplatePass(installed, home, mcpDir, apiKeys);
      if projects != [] && "filesystem" in installed {
        servers := ProjectPass(servers, ShownProjects(projects), mcpDir);
      }
    }

    /** `backup_existing_config`: copies the config to its path-derived backup name iff the config exists. */
    method BackupExistingConfig(md5Number: string -> nat) returns (backup: Option<string>)
      modifies this`files
      ensures var config := Join(configDir, ConfigFileName);
              var target := Join(configDir, BackupFileName(md5Number(config)));
              && backup == (if config in old(files) then Some(target) else None)
              && files == AfterBackup(old(files), config, target)
    {
      var config := Join(configDir, ConfigFileName);
      if config in files {
        var target := Join(configDir, BackupFileName(md5Number(config)));
        files := files[target := files[config]];
        backup := Some(target);
      } else {
        backup := None;
      }
    }
  }

  /** The environment loop of `detect_api_keys`: the `keys` dict with all four keys, each filled from its first set alias. */
  method EnvironmentPass(env: Environment) returns (keys: Keys)
    ensures keys.Keys == AllCredentials
    ensures forall k :: k in keys ==> keys[k] == FirstSetAlias(env, EnvAliases(k))
  {
    keys := map[GithubToken := None, BraveKey := None, OpenaiKey := None, AnthropicKey := None];
    var n := 0;
    while n < |CredentialOrder|
      invariant 0 <= n <= |CredentialOrder|
      invariant keys.Keys == AllCredentials
      invariant forall k :: k in keys ==> keys[k] == if k in CredentialOrder[..n] then FirstSetAlias(env, EnvAliases(k)) else None
    {
      assert CredentialOrder[..n + 1] == CredentialOrder[..n] + [CredentialOrder[n]];
      assert CredentialOrder[n] !in CredentialOrder[..n];
      keys := EnvironmentKey(keys, CredentialOrder[n], env);
      n := n + 1;
    }
    assert CredentialOrder[..n] == CredentialOrder;
    OrdersComplete();
  }

  /** The inner loop for one key: the first alias set to a non-empty value is stored, then the loop breaks. */
  method EnvironmentKey(keys: Keys, key: Credential, env: Environment) returns (found: Keys)
    requires key in keys && keys[key] == None
    ensures found == keys[key := FirstSetAlias(env, EnvAliases(key))]
  {
    found := keys;
    var aliases := EnvAliases(key);
    var j := 0;
    while j < |aliases|
      invariant 0 <= j <= |aliases|
      invariant FirstSetIndex(env, aliases, 0) == FirstSetIndex(env, aliases, j)
      invariant found == keys
    {
      if aliases[j] in env && env[aliases[j]] != "" {
        found := keys[key := Some(env[aliases[j]])];
        return;
      }
      j := j + 1;
    }
    assert keys[key := None] == keys;
  }

  /** The first loop of `generate_claude_config`: each installed module with a template is assigned it, in order. */
  method TemplatePass(installed: seq<string>, home: string, mcpDir: string, keys: Keys) returns (servers: Servers)
    ensures servers == InsertAll([], TemplatedEntries(installed, home, mcpDir, keys))
  {
    servers := [];
    var i := 0;
    while i < |installed|
      invariant 0 <= i <= |installed|
      invariant servers == InsertAll([], TemplatedEntries(installed[..i], home, mcpDir, keys))
    {
      ghost var es := TemplatedEntries(installed[..i], home, mcpDir, keys);
      TemplatedEntriesSnoc(installed, i, home, mcpDir, keys);
      var template := Template(installed[i], home, mcpDir, keys);
      if template.Some? {
        InsertAllSnoc([], es, Entry(installed[i], template.value));
        servers := Insert(servers, installed[i], template.value);
      } else {
        assert es + [] == es;
      }
      i := i + 1;
    }
    assert installed[..i] == installed;
  }

  /** The second loop: a `project-<basename>` entry for each shown project, in order. */
  method ProjectPass(base: Servers, shown: seq<string>, mcpDir: string) returns (servers: Servers)
    ensures servers == InsertAll(base, ProjectEntries(shown, mcpDir))
  {
    servers := base;
    var j := 0;
    while j < |shown|
      invariant 0 <= j <= |shown|
      invariant servers == InsertAll(base, ProjectEntries(shown[..j], mcpDir))
    {
      ghost var es := ProjectEntries(shown[..j], mcpDir);
      ProjectEntriesSnoc(shown, j, mcpDir);
      InsertAllSnoc(base, es, Entry(ProjectKey(shown[j]), ProjectSpec(mcpDir, shown[j])));
      servers := Insert(servers, ProjectKey(shown[j]), ProjectSpec(mcpDir, shown[j]));
      j := j + 1;
    }
    assert shown[..j] == shown;
  }

  /**
   * The dotfile loop: visits the files in order and lets each one fill the
   * keys that are still falsy.
   */
  method DotfilePass(keys: Keys, paths: seq<string>, read: string -> Dotfile) returns (found: Keys)
    requires keys.Keys == AllCredentials
    ensures found.Keys == AllCredentials
    ensures forall k :: k in found ==> found[k] == if HasPattern(k) then Fold(keys[k], FileCandidates(k, paths, read)) else keys[k]
  {
    found := keys;
    var f := 0;
    while f < |paths|
      invariant 0 <= f <= |paths|
      invariant found.Keys == AllCredentials
      invariant forall k :: k in found ==> found[k] == if HasPattern(k) then Fold(keys[k], FileCandidates(k, paths[..f], read)) else keys[k]
    {
      ghost var before := found;
      found := ScanFile(found, read(paths[f]));
      forall k | k in found
        ensures found[k] == if HasPattern(k) then Fold(keys[k], FileCandidates(k, paths[..f + 1], read)) else keys[k]
      {
        assert paths[..f + 1][..f] == paths[..f];
        ghost var c := FileCandidates(k, paths[..f], read);
        assert (c + [FileCandidate(read(paths[f]), k)])[..|c|] == c;
      }
      f := f + 1;
    }
    assert paths[..f] == paths;
  }

  /** One readable file: every key that is still falsy takes the value its pattern captures there, if any. */
  method ScanFile(keys: Keys, file: Dotfile) returns (found: Keys)
    requires keys.Keys == AllCredentials
    ensures found.Keys == AllCredentials
    ensures forall k :: k in found ==> found[k] == Step(keys[k], FileCandidate(file, k))
  {
    found := keys;
    if file.Readable? {
      var n := 0;
      while n < |PatternOrder|
        invariant 0 <= n <= |PatternOrder|
        invariant found == ScanKeys(keys, file, PatternOrder[..n])
      {
        var key := PatternOrder[n];
        assert PatternOrder[..n + 1][..n] == PatternOrder[..n];
        ScanKeysDomain(keys, file, PatternOrder[..n]);
        if !Truthy(found[key]) {
          var value := ExtractAssignment(file.text, PatternNames(key));
          if value.Some? {
            found := found[key := value];
          }
        }
        assert found == ScanKeys(keys, file, PatternOrder[..n])[key := Step(ScanKeys(keys, file, PatternOrder[..n])[key], FileCandidate(file, key))];
        n := n + 1;
      }
      assert PatternOrder[..n] == PatternOrder;
    }
    ScanKeysPatterns(keys, file);
  }
}
