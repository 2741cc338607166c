# MCP Quickstart installers: a Dafny model

This project models the decision logic of the two installers of the MCP
Quickstart repository. Both installers set up Model Context Protocol servers
for the desktop assistant: they install the server packages with npm, find
API keys, back up the existing `claude_desktop_config.json` and write a new
`mcpServers` descriptor.

- **`advanced-setup.py`, class `MCPQuickstart`** is modelled in `advanced_setup.dfy` as class `Quickstart`. It covers:
  - the credential resolver `detect_api_keys`. It looks in the environment aliases first, then, for the GitHub token only, `git config`, then a `NAME=value` scan of four dotfiles. The scan is a hand-written version of `re.search` (in `scanner.dfy`).
  - the six-module install loop `install_mcp_servers`, with its severities: ERROR for a required module, WARNING for an optional one.
  - the descriptor synthesis `generate_claude_config`, including the `project-<basename>` entries.
  - the path-derived backup `backup_existing_config`.
  - the ledger part of `log` and `run_command`, and the choice of the configuration directory in `__init__`.
- **`installer.py`, class `MCPInstaller`** is modelled in `installer.dfy`. It covers:
  - the ledger part of `log`, `check_node`, and the clock-derived backup `backup_config`;
  - `install_servers`, including its `npm init` and its `finally`, which restores the working directory;
  - the environment lookup `detect_api_keys` and the fixed-template `generate_config`;
  - `write_config`, the gating of `run`, and the exit status of `main`.
- **`descriptor.dfy`** holds the launch descriptor. It is an ordered association list with Python `dict` assignment semantics: an existing key keeps its place, a new key is appended.
- **`text.dfy`** holds the string and path pieces both installers use: `str.strip`, `str(int)`, `s.split('/')[-1]`, and pathlib's `/` and `.name`.

Outside effects become explicit inputs:
- the process environment is a map;
- what each subprocess or shell command did is an outcome value (`CommandOutcome`, `ProcessOutcome`), one per call;
- the dotfiles are a function from path to `Dotfile` (absent, unreadable, or readable text);
- the files the installers copy and write are a map from path to content;
- `time.time()` is the number `now`, and the md5-derived number of a path is a function parameter.

The calls handed to subprocesses are recorded in an `issued` ledger. "One attempt per catalog entry" and "`npm init` only when `package.json` is absent" are therefore statements about that ledger.

Notes on behaviour:
- An unresolved credential is written as JSON `null` by `advanced-setup.py`, not as a placeholder. `detect_api_keys` always returns all four keys, so the `.get(..., "PLACEHOLDER_...")` default is never used (`UnresolvedKeysAreNull`). `installer.py` uses its `REPLACE_WITH_...` placeholder only when the variable is unset.
- Only `installer.py` restores the working directory. `install_mcp_servers` leaves the process in `~/.mcp-servers`.
- Backup names are not unique across runs. The advanced installer derives the name from the path alone, so a second run overwrites the first backup. The simple installer derives it from the clock in seconds, so two runs in the same second collide.
- In `installer.py` an exception from `subprocess.run` is not caught; only `check_node` catches `FileNotFoundError`. An exception from `npm init` or `npm install` leaves `install_servers`, after the `finally` has restored the directory, and ends `run`. `main` then exits with status 1. The model represents this as `None` or `Crashed`.
- `check_node` in `installer.py` passes no timeout.

## Model

| member | source | states |
|---|---|---|
| Text.Strip | advanced-setup.py:170 | `strip(chars)` returns the slice of `s` whose surroundings are all in `chars` and whose two ends are not |
| Text.StripUnique | advanced-setup.py:170 | any slice with those two properties is the result of the strip |
| Text.StripAllDropped | advanced-setup.py:170 | a string made only of stripped characters strips to `""` |
| Text.DecimalRoundTrip | installer.py:59 | reading `str(n)` back as a number gives `n` |
| Text.DecimalStringInjective | installer.py:59 | different clock readings print differently |
| Text.LastSegment | installer.py:96 | `split('/')[-1]` is the `/`-free suffix, preceded by `/` when it is not the whole string |
| Text.LastSegmentAfterSlash | installer.py:96 | the last segment of `prefix/t` is `t` when `t` has no `/` |
| Text.BaseName | advanced-setup.py:288 | `Path(p).name` on a POSIX path: the last component, skipping empty and `.` components; `""` when none is left; never contains `/`, never `.` |
| Text.BaseNameAfterSlash | advanced-setup.py:288 | a plain name, alone or after `dir/`, is its own `.name` |
| Text.BaseNameTrailingSlash | advanced-setup.py:288 | a trailing `/` does not change `.name` |
| Text.BaseNameTrailingDot | advanced-setup.py:288 | a trailing `/.` does not change `.name` |
| Text.JoinInjective | installer.py:59 | joining one directory with two different names gives two different paths |
| Scanner.AlternativeAt | advanced-setup.py:161 | the alternative taken at a position is the first of `(?:A\|B)` that matches there; none matches when `None` |
| Scanner.SearchFrom | advanced-setup.py:168 | `re.search` finds the leftmost position where an assignment with a non-empty value matches; `None` means there is none |
| Scanner.RunEnd | advanced-setup.py:161 | the greedy `[^\s\n]+` stops at the first whitespace character or the end of the text |
| Scanner.Capture | advanced-setup.py:168-170 | `group(1)` is a non-empty run of non-whitespace characters |
| Scanner.ExtractedUnquoted | advanced-setup.py:168-170 | a value is assigned iff something was captured; it is the capture with its surrounding quotes stripped |
| Scanner.CaptureOfLeftmost | advanced-setup.py:161-170 | the capture is the whole non-whitespace run after the `=` of the leftmost match |
| Scanner.NoAssignmentNoValue | advanced-setup.py:168-169 | with no match anywhere, nothing is assigned |
| Scanner.QuoteOnlyCaptureIsEmpty | advanced-setup.py:170 | a capture made only of quote characters assigns `""` |
| AdvancedSetup.AdvancedConfigDir | advanced-setup.py:30-35 | on Windows the directory is `APPDATA/Claude`, and is `None` (`KeyError`) exactly when `APPDATA` is unset |
| AdvancedSetup.OrdersComplete | advanced-setup.py:120-164 | the environment loop visits every key; exactly the keys with a pattern are visited by the dotfile loop |
| AdvancedSetup.FirstSetIndex | advanced-setup.py:136-139 | the index found is that of the first alias set to a non-empty value, or the end of the list |
| AdvancedSetup.FirstSetAlias | advanced-setup.py:135-139 | a value stored from the environment is never `""` |
| AdvancedSetup.EnvAliasPrecedence | advanced-setup.py:128-139 | the first alias set to a non-empty value wins; aliases set to `""` count as unset |
| AdvancedSetup.LaterAliasesIgnored | advanced-setup.py:136-139 | aliases after the winning one cannot change the result |
| AdvancedSetup.FileCandidates | advanced-setup.py:155-172 | there is one candidate per dotfile |
| AdvancedSetup.FileCandidateAt | advanced-setup.py:155-172 | candidate `i` is what the scan of file `i` alone assigns to the key (nothing for a missing or unreadable file) |
| AdvancedSetup.FoldIsFirstMatch | advanced-setup.py:148-172 | the guarded assignments over the files compute first-match-wins over all sources |
| AdvancedSetup.FirstMatchPicksFirstTruthy | advanced-setup.py:135-170 | the first truthy source decides the key, whatever the lower-ranked ones hold |
| AdvancedSetup.FirstMatchWithoutTruthy | advanced-setup.py:135-174 | with no truthy source the key is `""` if some source matched, `None` otherwise |
| AdvancedSetup.FoundKeyNeverOverwritten | advanced-setup.py:166-170 | a key that holds a non-empty value is never overwritten by a later file |
| AdvancedSetup.EnvironmentWins | advanced-setup.py:135-145 | a set environment alias decides the key, regardless of `git config` and the dotfiles |
| AdvancedSetup.GitConfigBeforeDotfiles | advanced-setup.py:141-145 | with no GitHub alias set, a successful non-blank `git config` answer decides the token over the dotfiles |
| AdvancedSetup.Resolve | advanced-setup.py:118-174 | the value `detect_api_keys` reports for a key; its properties are `EnvironmentWins`, `GitConfigBeforeDotfiles`, `FirstScannedDotfileWins` and `AnthropicKeyOnlyFromEnvironment` |
| AdvancedSetup.FirstScannedDotfileWins | advanced-setup.py:146-172 | failing the environment and `git config`, the first of `.bashrc`, `.zshrc`, `.env`, `hosts.yml` under the home directory whose scan gives a non-empty value decides the key |
| AdvancedSetup.FirstDotfileWins | advanced-setup.py:148-172 | failing the earlier sources, the first file whose scan gives a non-empty value decides the key; files giving `""` do not stop the search |
| AdvancedSetup.AnthropicKeyOnlyFromEnvironment | advanced-setup.py:160-164 | `anthropic_key` has no pattern, so it comes from the environment or nowhere |
| AdvancedSetup.ScanKeysAt | advanced-setup.py:166-170 | one file gives each key in the pattern loop one guarded assignment and leaves every other key unchanged |
| AdvancedSetup.ScanKeysPatterns | advanced-setup.py:166-170 | the pattern loop keeps all four keys and gives each key with a pattern its guarded assignment |
| AdvancedSetup.PassesResolve | advanced-setup.py:135-172 | the environment pass, the `git config` step and the dotfile pass together compute first-match-wins for each key |
| AdvancedSetup.DetectPassesResolve | advanced-setup.py:118-174 | the three passes, composed, give every key its resolved value |
| AdvancedSetup.UnreadableLikeAbsent | advanced-setup.py:156-172 | an unreadable file (the swallowed exception) contributes exactly what a missing one does |
| AdvancedSetup.FilesScannedIndependently | advanced-setup.py:155-172 | the candidate of one file depends on that file alone |
| AdvancedSetup.InstallCommandsOnePerEntry | advanced-setup.py:221-223 | catalog entry `i` gets exactly the `i`-th `npm install` command, whatever the outcomes |
| AdvancedSetup.InstalledNamesDistinct | advanced-setup.py:221-226 | entries with distinct names give an `installed` list without duplicates |
| AdvancedSetup.InstalledNamesExact | advanced-setup.py:221-226 | with distinct names, an entry's name is in `installed` iff its install succeeded |
| AdvancedSetup.InstalledNamesOnlyFromCatalog | advanced-setup.py:225-226 | every installed name is a catalog name |
| AdvancedSetup.QuietLedger | advanced-setup.py:221-231 | with no command raising and not verbose, each failure adds exactly one ERROR (required) or one WARNING (optional), in catalog order |
| AdvancedSetup.CatalogNamesDistinct | advanced-setup.py:181-212 | the six module names are distinct |
| AdvancedSetup.Template | advanced-setup.py:240-278 | a template exists exactly for filesystem, github, brave-search, memory and sqlite |
| AdvancedSetup.TemplatedNamesMembers | advanced-setup.py:281-283 | exactly the installed names that have a template are kept |
| AdvancedSetup.TemplatedEntriesNames | advanced-setup.py:281-283 | the first loop assigns the installed names with a template, in installed order |
| AdvancedSetup.TemplatedEntriesSpecs | advanced-setup.py:281-283 | every assignment of the first loop stores the module's own template |
| AdvancedSetup.ProjectEntriesAt | advanced-setup.py:287-296 | the project loop assigns `project-<basename>` to each project's launch spec, in order |
| AdvancedSetup.ShownProjects | advanced-setup.py:287 | `projects[:3]` is the prefix of the first three projects, or all of them when there are fewer |
| AdvancedSetup.ProjectKeysArePrefixed | advanced-setup.py:289 | every project key starts with `project-` |
| AdvancedSetup.ProjectKeyIsNoTemplate | advanced-setup.py:289 | no `project-` key collides with a module name |
| AdvancedSetup.ClaudeConfig | advanced-setup.py:235-298 | the descriptor `generate_claude_config` builds; its properties are `ClaudeConfigNames`, `InstalledConfigNames`, `TemplateConfigured`, `UnresolvedKeysAreNull`, `ProjectKeyKeepsLast` and `PuppeteerNeverConfigured` |
| AdvancedSetup.InstalledConfigNames | advanced-setup.py:418-422 | with `installed` as the install loop over the six modules leaves it, the key order of `ClaudeConfigNames` holds with no further assumption |
| AdvancedSetup.ClaudeConfigNames | advanced-setup.py:281-296 | the descriptor keys are the templated installed names in installed order, then (only with filesystem installed and projects given) one key per distinct basename among the first three projects |
| AdvancedSetup.TemplatedConfigNames | advanced-setup.py:281-283 | the module loop leaves the templated modules as keys, in installed order |
| AdvancedSetup.ProjectNamesNoTemplates | advanced-setup.py:285-296 | no project key is the name of a templated module |
| AdvancedSetup.PuppeteerNeverConfigured | advanced-setup.py:240-283 | `puppeteer` is never a key of the descriptor |
| AdvancedSetup.PuppeteerIsNoProjectKey | advanced-setup.py:289 | no project key is `puppeteer` |
| AdvancedSetup.TemplateConfigured | advanced-setup.py:281-283 | an installed module with a template is configured with exactly that template |
| AdvancedSetup.UnresolvedKeysAreNull | advanced-setup.py:249-261 | an unresolved GitHub token or Brave key is written as `null`; neither placeholder default is used |
| AdvancedSetup.ProjectKeyKeepsLast | advanced-setup.py:287-296 | when basenames repeat among the shown projects, the key holds the launch spec of the last such project |
| AdvancedSetup.ProjectKeyInjective | advanced-setup.py:288-289 | equal project keys come from equal basenames |
| AdvancedSetup.LastProjectSpec | advanced-setup.py:287-296 | the last project with a given basename is the one whose spec the key keeps |
| AdvancedSetup.BackupDistinctFromConfig | advanced-setup.py:382 | the backup never lands on the config file itself |
| AdvancedSetup.RepeatedBackupOverwrites | advanced-setup.py:381-383 | a second backup copies the then-current config over the first run's backup |
| AdvancedSetup.Quickstart.constructor | advanced-setup.py:21-35 | the object starts with empty ledgers and the configuration directory `__init__` picks |
| AdvancedSetup.Quickstart.Log | advanced-setup.py:47-50 | ERROR messages go to `errors`, WARNING messages go to `warnings`, and nothing else changes |
| AdvancedSetup.Quickstart.RunCommand | advanced-setup.py:54-69 | success iff the command exited with 0; stdout is `""` on an exception; one ERROR on an exception; one WARNING on a non-zero exit when verbose |
| AdvancedSetup.Quickstart.DetectApiKeys | advanced-setup.py:118-174 | the result has all four keys, each holding its first-match-wins value; `git config` runs iff no GitHub alias is set |
| AdvancedSetup.Quickstart.GitPass | advanced-setup.py:141-145 | `git config` runs only while the token is falsy, and a non-blank stripped answer is stored |
| AdvancedSetup.Quickstart.InstallMcpServers | advanced-setup.py:176-233 | `npm init` runs iff there is no manifest; one `npm install` per catalog entry, in order; `installed` and both ledgers as the loop builds them; the working directory is left in `~/.mcp-servers` |
| AdvancedSetup.Quickstart.InstallEach | advanced-setup.py:221-231 | every entry is attempted in order whatever earlier failures occurred; `installed` and both ledgers as the loop specification gives them |
| AdvancedSetup.Quickstart.InstallOne | advanced-setup.py:222-231 | one `npm install`, then the failure message its `required` flag calls for |
| AdvancedSetup.Quickstart.GenerateClaudeConfig | advanced-setup.py:235-298 | the two loops build the descriptor `ClaudeConfig` describes |
| AdvancedSetup.Quickstart.BackupExistingConfig | advanced-setup.py:377-386 | the config is copied to its path-derived backup iff it exists, and that backup path is returned |
| AdvancedSetup.EnvironmentPass | advanced-setup.py:120-139 | all four keys are present, each from its first set alias |
| AdvancedSetup.EnvironmentKey | advanced-setup.py:136-139 | the inner loop stores the first set alias and stops there |
| AdvancedSetup.TemplatePass | advanced-setup.py:281-283 | the first loop assigns each installed module's template in installed order |
| AdvancedSetup.ProjectPass | advanced-setup.py:286-296 | the second loop assigns a `project-<basename>` entry per shown project, in order |
| AdvancedSetup.DotfilePass | advanced-setup.py:155-172 | the files are visited in order, each filling the keys that are still falsy |
| AdvancedSetup.ScanFile | advanced-setup.py:157-170 | one readable file gives each still-falsy key the value its pattern captures |
| Descriptor.InsertLookup | advanced-setup.py:283 | after `d[name] = spec`, `name` maps to `spec` and every other key to its old value |
| Descriptor.InsertNames | advanced-setup.py:283 | after `d[name] = spec`, the key order is unchanged, except that a new key is appended |
| Descriptor.InsertFresh | installer.py:121 | assigning a key not yet present appends it |
| Descriptor.InsertAllNames | advanced-setup.py:281-296 | after a series of assignments the keys are the old ones, then each new key where it first appears |
| Descriptor.InsertAllLookup | advanced-setup.py:281-296 | after a series of assignments a key holds the last value assigned to it, else its old value |
| Descriptor.AppendNewKeepsDistinct | advanced-setup.py:281-296 | the keys of the descriptor stay distinct |
| Installer.InstallerConfigDir | installer.py:26-32 | the descriptor directory by OS; its property is `WindowsWithoutAppdataIsRelative` |
| Installer.WindowsWithoutAppdataIsRelative | installer.py:30 | on Windows without `APPDATA` the descriptor goes to `Claude/` below the working directory |
| Installer.PackageShortName | installer.py:96 | the reported name of a catalog package is `server-<key>` |
| Installer.CatalogShortNames | installer.py:66-71 | package `i` of the catalog installs the server whose template has key `i` |
| Installer.SameSecondSameBackup | installer.py:59 | two backups get the same name iff they are made in the same second |
| Installer.BackupNeverConfig | installer.py:59 | the backup never lands on the descriptor itself |
| Installer.InstallsAt | installer.py:88-94 | the `i`-th install call of the loop installs the `i`-th package |
| Installer.NoInitInLoop | installer.py:88-94 | the loop never runs `npm init` |
| Installer.EachOutcomeOnce | installer.py:95-99 | with no call raising, the installed names and the failure messages together number the packages |
| Installer.FailedIsLogged | installer.py:98-99 | every package whose install exited non-zero is logged as failed |
| Installer.FailuresAreFailed | installer.py:98-99 | each logged failure names a package whose install exited non-zero |
| Installer.ShortsMembers | installer.py:95-97 | a short name owned by one package is reported iff that package exited with 0 |
| Installer.NoShortBeyond | installer.py:95-97 | a short name that no package has is never reported |
| Installer.ManifestInitialisedOnce | installer.py:83-84 | `npm init` runs iff `package.json` is absent, as the first call, and only once |
| Installer.AllPackagesAttempted | installer.py:88-94 | with no exception, all four packages are attempted once each, in order |
| Installer.InstallCountsAddUp | installer.py:95-99 | with no exception, the installed names and the ERRORs together number four |
| Installer.InstallFailureLogged | installer.py:88-99 | each package attempted before any exception whose install exited non-zero is logged as `Failed to install`, even when a later install raises |
| Installer.InstallErrorsNameFailures | installer.py:98-99 | each ERROR of `install_servers` names a package whose install exited non-zero |
| Installer.InstalledIffExitZero | installer.py:95-96 | with no exception, the server of package `i` is reported iff its install exited with 0 |
| Installer.DetectApiKeys | installer.py:106-111 | the two environment lookups; their property is `SimpleKeyLookup` |
| Installer.SimpleKeyLookup | installer.py:108-111 | a set variable is returned as it is, even when empty; the placeholder appears only when the variable is unset (or holds the placeholder) |
| Installer.GenerateConfig | installer.py:113-151 | the fixed-template descriptor; its properties are `GenerateConfigSelects`, `ConfigFixedOrder`, `ConfigIgnoresInputOrder`, `ConfigTemplates` and `ConfiguredIffInstalled` |
| Installer.GenerateConfigSelects | installer.py:119-149 | the four guarded assignments select the installed templates |
| Installer.ConfigFixedOrder | installer.py:119-149 | the keys are those of the installed servers, in the fixed order filesystem, github, brave-search, memory |
| Installer.ConfigIgnoresInputOrder | installer.py:119-149 | the same servers listed in another order, or with repeats, give the same descriptor |
| Installer.TemplatesLookup | installer.py:121-149 | each key has its fixed template |
| Installer.ConfigTemplates | installer.py:120-149 | an entry is present iff its server is installed; filesystem and memory run `node` with no `env`; github and brave-search carry their token in `env` |
| Installer.ConfiguredIffInstalled | installer.py:120-143 | after a clean install, a descriptor entry exists iff its package installed |
| Installer.RunSpec | installer.py:179-230 | the state and outcome of `run`; its properties are `NoNodeNoChanges`, `BackupSurvivesRun`, `NothingInstalledNoConfig`, `RunSucceedsIff` and `RunGating` |
| Installer.NoNodeNoChanges | installer.py:185-187 | without Node.js nothing is backed up, installed or written, and the run does not succeed |
| Installer.BackupSurvivesRun | installer.py:189-205 | once Node.js is found, an existing descriptor is copied to the backup, and the copy survives the rest of the run |
| Installer.NothingInstalledNoConfig | installer.py:198-200 | when nothing installs, the run fails after the backup, the descriptor is not written, and the last ERROR says so |
| Installer.RunSucceedsIff | installer.py:185-230 | a run succeeds iff Node.js was found, something installed, the descriptor was written and no ERROR was logged |
| Installer.ExitCode | installer.py:232-243 | the exit status of `main`; its property is `RunGating` |
| Installer.RunGating | installer.py:185-243 | the exit status is 0 or 1, and 0 iff in test mode or Node.js was found, the install raised nothing and installed something, and no ERROR was logged; without Node.js, or when an exception escapes the install, it is 1 |
| Installer.MCPInstaller.constructor | installer.py:20-34 | the object starts with the layout `__init__` computes and an empty ERROR ledger |
| Installer.MCPInstaller.Log | installer.py:45-46 | the message goes to `errors` iff its level is ERROR; other levels leave `errors` unchanged |
| Installer.MCPInstaller.CheckNode | installer.py:48-54 | true iff `node --version` exits with 0; a missing executable gives false; another exception escapes |
| Installer.MCPInstaller.BackupConfig | installer.py:56-61 | the descriptor is copied to its clock-derived name iff it exists, and no ERROR is logged |
| Installer.MCPInstaller.InstallOne | installer.py:89-99 | one `npm install`; an ERROR iff it exited non-zero; `None` iff the call raised |
| Installer.MCPInstaller.InstallEach | installer.py:88-99 | the loop installs in order until a call raises; the names, ERRORs and calls up to that point are as the loop specification gives them |
| Installer.MCPInstaller.InitAndInstall | installer.py:82-101 | `npm init` when needed, then the loop; result and new state are those of `install_servers` |
| Installer.MCPInstaller.InstallCatalog | installer.py:86-101 | the loop over the whole catalog, as the specification of `install_servers` gives it |
| Installer.MCPInstaller.InstallServers | installer.py:63-104 | the working directory after the call equals the one before on every exit path; result and state are those of `install_servers` |
| Installer.MCPInstaller.WriteConfig | installer.py:153-160 | the descriptor file holds the new descriptor, and no ERROR is logged |
| Installer.MCPInstaller.Configure | installer.py:198-205 | an empty install gives an ERROR and false; otherwise the descriptor is written and the run's result follows |
| Installer.MCPInstaller.InstallAndConfigure | installer.py:196-205 | install, then `Configure` unless an exception escaped |
| Installer.MCPInstaller.BackupAndInstall | installer.py:189-205 | the backup comes before the install, and the rest follows the specification |
| Installer.MCPInstaller.Run | installer.py:179-230 | `run` follows `RunSpec` step by step, and the working directory is unchanged |

## Left out

- Terminal output is not modelled: `print`, colour codes, the TTY check of `log`, banners and the final reports. Only the ledger part of `log` is modelled.
- `check_dependencies`, `auto_detect_projects` and `create_helper_scripts` (advanced) and `create_workspace` (simple) are not modelled. They scan directories or write static text. `projects` is an input of `generate_claude_config`.
- `MCPQuickstart.run` is not modelled as a whole. Its steps `detect_api_keys`, `backup_existing_config`, `install_mcp_servers` and `generate_claude_config` are. Writing the descriptor there is a plain overwrite, as `WriteConfig` shows for the simple installer.
- `mkdir` calls are not modelled, and neither is the JSON text formatting of `json.dump`/`json.dumps`. The descriptor is kept as a datatype.
- npm's own effects on disk are not modelled: `npm init` creating `package.json`, and `node_modules`. The model does not add these files to the file map.
- Subprocesses and shell commands are not executed. Their results are outcome values, and the 30-second timeout of `run_command` is one way a command can raise.
- md5 is a function parameter, and `time.time()` is the parameter `now`.
- Path joining is `Join`, which does not normalise. `BaseName` skips empty and `.` components as pathlib does; `..` is kept as a name, as pathlib keeps it.
- `argparse` is not modelled. Only `main`'s exit-status mapping in `installer.py` is modelled, with the `--test` flag as a boolean input. The advanced `main`, with its unused `--yes` and `--repair` flags, returns no status.
- Installer.MCPInstaller.Run: the outcome sequence holds exactly one outcome per catalog package (`|outcomes| == |Packages|`). This is the model's oracle; the source demands nothing of the kind. The same holds for the other install members and for `AdvancedSetup.Quickstart.InstallMcpServers` with `|outcomes| == |Catalog|`.
- Text.BaseName: models POSIX paths only. `/` is the only separator. Windows `\` separators and drive letters, which `str(item)` produces on Windows, are not modelled, so a project key would differ there.
- AdvancedSetup.Quickstart.constructor: it requires `APPDATA` on Windows, because `__init__` raises `KeyError` there otherwise. That failure itself is `AdvancedConfigDir` returning `None`.
- Regex `\s` is the fixed set of whitespace characters for which `str.isspace()` holds. Unicode normalisation and encodings are not modelled.
