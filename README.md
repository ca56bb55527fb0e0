# repops, modelled in Dafny

repops manages a set of git repositories and runs maintenance operations over them. The
repository holds two designs that share no code, and this project models the core of both.

**The grouped design.** This covers the models, configuration manager and exceptions under `src/repops`.
- A repository record has a server type taken from a closed enumeration (`github`,
  `azure-devops`, `gitlab`).
- A `RepositoryConfig` collection keeps two maps side by side:
  - records by name;
  - ordered member-name lists by group.
- The collection converts to and from a nested mapping. Records of the "default" group sit at
  the top level; every other group is nested under its own name.
- A `ConfigManager` holds the loaded collection (or none). It validates it and summarises it.
- Errors come from a small exception taxonomy with exact message formats.

**The prototype design.** This covers the core, config, operations, languages and pipelines under `repops/`.
- A flat, append-only list of repositories with a language filter.
- A loader that turns a decoded configuration document into that list.
- A family of operations, each of which runs a fixed sequence of external commands (git, gh,
  flake8/autopep8, pytest, npm) and stops at the first failure.
- A pipeline that runs an ordered list of operations over every repository, stopping per
  repository at the first operation that returns false.

Modules (one file each):
- `Wrappers`: the `Option` and `Result` types.
- `Text`: ASCII `lower`/`strip`, `join`, substring search.
- `Document`: the decoded YAML value, whose mappings keep insertion order.
- `Errors`: the exception taxonomy.
- `Models`: the server type, the record, and the collection as a value, with the invariant
  `Valid` that add and remove keep.
- `Codec`: `to_dict`/`from_dict` on values and the round trip.
- `RepositoryConfigs`: the mutable `RepositoryConfig` class. Each of its methods is proved
  against the value-level operation.
- `Manager`: validation, summary and the `ConfigManager` class.
- `Core`, `Loader`.
- `Shell`: the command runner, as an oracle.
- `OperationBase`, `LanguageBase`, `GitOps`, `GitHubOps`, `PythonOps`, `JavaScriptOps`.
- `Operations`: the closed union of operation classes, with dispatch.
- `Pipelines`: the pipeline specification and the `Pipeline` class.
- `PipelineExamples`: the two-repository scenarios of the pipeline tests.

How effects are modelled:
- **External commands.** A `Shell.Runner` answers each command from an oracle (`imap<Command,
  Response>`) and records it in `log`. A command the oracle does not know of counts as a
  failed one, as an unlaunchable process does in the source.
- **Specification of each operation.** Each operation has a plan function: refuse the
  repository, run commands until one fails, or raise `NotImplementedError`. It also has an
  `Execute…` method whose contract says that the commands it runs and the boolean it returns
  are those of the plan.
- **The YAML file.** Whether the file exists and what the decoder produced are parameters of
  `LoadConfig`. `SaveConfig` returns the mapping it would write.

Where the prose design description of the system and the code disagree, the model follows the code:
- **Referential integrity.** The design says every name in a group list has a record, and that
  removal cleans both maps. In the code, re-adding a name under another group leaves it in the
  old group's list, and removal cleans only the current group. `Models.StaleNameAfterRegroup`
  exhibits this. `Valid` is therefore the weaker invariant the code actually keeps.
- **Round trip.** The design promises the round trip for any collection built by adding. The
  code achieves it at least when each record's name is listed in its own group alone, and no
  other group shares its name with a "default" record. These are the side conditions of
  `Codec.RoundTrip`; they are sufficient, not necessary. Without the second one a record can
  be lost: `Codec.NameClashLosesRecord` shows a "default" record whose top-level key is
  overwritten by the block of the group that has the same name.
- **Supported server types.** They are listed in declaration order
  (`github, azure-devops, gitlab`), not in the order the design text gives.
- **Unlaunchable commands.** The design says a process that cannot be started propagates an
  error. Every operation in the code catches `Exception` and returns `False`, and so does the
  model.
- **Non-mapping YAML documents.** The design calls these an invalid configuration. In the code
  only a YAML syntax error is `InvalidConfigError`. A document that is not a mapping fails
  inside `from_dict` and is re-raised as a plain `ConfigError`.

## Model

| member | source | states |
|---|---|---|
| Errors.NewError | src/repops/exceptions/exceptions.py:9-12 | the message is stored unchanged; absent details become the empty mapping and given details are kept |
| Errors.MissingRequiredField | src/repops/exceptions/exceptions.py:45-52 | the class is MissingRequiredFieldError; the message is "Missing required field: F", followed by " in C" exactly when the context is non-empty; the details are exactly field_name and context |
| Errors.InvalidServerType | src/repops/exceptions/exceptions.py:55-60 | the message is "Invalid server type: S. Supported types: " followed by the supported values joined with ", "; the details are exactly server_type and supported_types |
| Errors.EveryErrorIsRepopsError | src/repops/exceptions/exceptions.py:6-60 | every class of the taxonomy is a subclass of RepopsError |
| Errors.Hierarchy | src/repops/exceptions/exceptions.py:15-60 | InvalidConfigError is a ConfigError; both field errors are ValidationErrors; the root's direct subclasses are exactly Config/Repository/Validation/FileNotFound; the config and validation branches do not meet |
| Models.ServerFromString | src/repops/models/repository.py:16-24 | parsing succeeds exactly when the lower-cased input is one of the three values, and yields the member with that value; otherwise it fails with InvalidServerType naming the original input and all three values |
| Models.ServerValuesInDeclarationOrder | src/repops/models/repository.py:9-24 | the supported list in the error is the members' values in declaration order, and it holds every member's value |
| Models.ServerValueRoundTrip | src/repops/models/repository.py:9-20 | parsing a member's own value gives that member back |
| Models.ParseLowered | src/repops/models/repository.py:17-20 | any spelling whose lower-case form is a member's value parses to that member |
| Models.ServerFromStringIgnoresCase | src/repops/models/repository.py:17-24 | two spellings that differ only in letter case give the same result |
| Models.NewRepository | src/repops/models/repository.py:38-43 | the post-init coercion: a parsed server type is kept; a textual one is parsed; the record exists exactly when parsing succeeds, and otherwise the parse error is raised |
| Models.FirstMissing | src/repops/models/repository.py:50-53 | nothing is reported missing exactly when every required field is present |
| Models.FirstMissingIsFirst | src/repops/models/repository.py:50-54 | the reported field is absent and every field checked before it is present |
| Models.RecordDecodeMissing | src/repops/models/repository.py:53-54 | a record lacking a required field fails with MissingRequiredField for the first absent field, in context "repository 'N' in group 'G'" |
| Models.RecordDecodeFields | src/repops/models/repository.py:56-63 | a decoded record carries the given name and group, and the text of url, path and defaultBranch; its server type is what its server text parses to |
| Models.RepositoryToDict | src/repops/models/repository.py:65-72 | the written mapping has exactly the keys url, server, path, defaultBranch, in that order |
| Models.RepositoryRoundTrip | src/repops/models/repository.py:46-72 | decoding a record's own mapping under its own name and group gives the record back |
| Models.EmptyConfigValid | src/repops/models/repository.py:82-84 | a new collection satisfies the invariant and has no dangling names |
| Models.RemoveFirst | src/repops/models/repository.py:102-103 | `list.remove` of a listed name makes the list one shorter; for an absent name, where Python raises `ValueError` but the guard at line 102 never lets the call happen, the model returns the list unchanged |
| Models.RemoveFirstAt | src/repops/models/repository.py:103 | removing the first occurrence keeps the remaining names in their order: the names before it, then the names after it |
| Models.RemoveFirstMultiset | src/repops/models/repository.py:103 | exactly one occurrence of the name goes |
| Models.RemoveFirstNoDup | src/repops/models/repository.py:103 | on a list without repeats, the name disappears entirely, every other name stays, and there are still no repeats |
| Models.AddAppendsName | src/repops/models/repository.py:93-94 | a name its group does not list yet is appended at the end of that group's list |
| Models.AddSpec | src/repops/models/repository.py:86-94 | adding keeps the invariant and stores the record; its name appears exactly once in its group's list; re-adding leaves that list as it was; every other record and group list is unchanged |
| Models.AddValid | src/repops/models/repository.py:86-94 | adding preserves the invariant: the default group exists, no list has repeats, and every record is listed in its own group |
| Models.RemoveSpec | src/repops/models/repository.py:96-105 | removing an unknown name changes nothing; otherwise the record and its name in its current group's list are gone; all other records and lists and the set of groups are unchanged; the invariant is kept |
| Models.RemoveValid | src/repops/models/repository.py:96-105 | removing preserves the invariant |
| Models.StaleNameAfterRegroup | src/repops/models/repository.py:88-105 | re-adding a record under another group leaves its name in the old list, and removing it does not clear that entry; the invariant survives but referential integrity does not |
| Models.LiveRecordsMembers | src/repops/models/repository.py:112 | the filtered lookup yields exactly the records of listed names that have one |
| Models.ByGroup | src/repops/models/repository.py:107-112 | an unknown group yields no records; a known group yields at most one record per listed name |
| Models.LiveRecordsAppend | src/repops/models/repository.py:112 | the lookup keeps the group list's order: the records of a concatenation of names are those of the first part followed by those of the second |
| Models.LiveRecordsSingle | src/repops/models/repository.py:112 | one listed name yields its record when it has one, and nothing otherwise; with LiveRecordsAppend this fixes the result record by record, in list order |
| Models.ByGroupMembers | src/repops/models/repository.py:107-112 | under the invariant, a group's lookup yields exactly the stored records whose name the group lists |
| Models.RecordFoundInOwnGroup | src/repops/models/repository.py:107-112 | every stored record is found by looking up its own group |
| Models.AllRepositories | src/repops/models/repository.py:114-116 | one record per key, in insertion order, each being the record stored under that key |
| Models.AllRepositoriesComplete | src/repops/models/repository.py:114-116 | under the invariant every stored record appears, and the list is as long as the number of records |
| Document.Put | src/repops/models/repository.py:148 | `d[k] = v` rebinds an existing key in place (the keys keep their order) and otherwise appends; afterwards k maps to v and every other key is unchanged |
| Codec.DecodeEntriesValid | src/repops/models/repository.py:118-134 | whatever `from_dict` builds satisfies the invariant |
| Codec.DecodeRecordsValid | src/repops/models/repository.py:126-128 | reading a group block keeps the invariant |
| Codec.DecodeIgnoresNonMappings | src/repops/models/repository.py:123-133 | a top-level value that is not a mapping is ignored |
| Codec.DecodeReadsDefaultRecord | src/repops/models/repository.py:129-132 | a top-level mapping with some non-mapping value is read as one "default" record named by its key, or fails with that record's error |
| Codec.PutRecordsAppends | src/repops/models/repository.py:146-154 | with names not yet used as keys, the inner loop of `to_dict` only appends; it appends the live records in list order |
| Codec.DecodeRecordsOfRecordEntries | src/repops/models/repository.py:126-128 | reading back written records under the group they were written in succeeds and re-adds each of them |
| Codec.DecodeEntriesOfRecordEntries | src/repops/models/repository.py:129-132 | reading back "default" records from the top level succeeds and re-adds each of them |
| Codec.DecodeEntriesAppend | src/repops/models/repository.py:123-133 | reading a concatenation reads the first part and continues from its result; an error in the first part is final |
| Codec.EncodeGroupsIsBlocks | src/repops/models/repository.py:136-158 | under the round-trip conditions `to_dict` never overwrites a key: it writes each group's block in group order |
| Codec.DecodeBlocks | src/repops/models/repository.py:118-134 | reading back the blocks of the first i groups restores exactly those groups' records |
| Codec.NameClashLosesRecord | src/repops/models/repository.py:141-156 | for a valid, consistent collection with a "default" record named like another group, `from_dict(to_dict(c))` succeeds but loses that record: the group's block overwrites its top-level key |
| Codec.RoundTrip | src/repops/models/repository.py:118-158 | (sufficient conditions) when each record's name is listed only in its own group and no other group is named like a "default" record, `from_dict(to_dict(c))` succeeds and restores every record with its name, group and fields |
| RepositoryConfigs.RepositoryConfig.constructor | src/repops/models/repository.py:82-84 | a new object holds no records and only the empty "default" group |
| RepositoryConfigs.RepositoryConfig.AddRepository | src/repops/models/repository.py:86-94 | the in-place update leaves exactly the value `Add` specifies and keeps the invariant |
| RepositoryConfigs.RepositoryConfig.RemoveRepository | src/repops/models/repository.py:96-105 | the in-place update leaves exactly the value `Remove` specifies and keeps the invariant |
| RepositoryConfigs.RepositoryConfig.FromDict | src/repops/models/repository.py:118-134 | the loop succeeds exactly when the value-level decoder does; it returns a new object holding that collection, which satisfies the invariant, or the same error |
| RepositoryConfigs.RepositoryConfig.ReadEntry | src/repops/models/repository.py:123-132 | one top-level entry is read as a group block, a "default" record, or ignored, as the value-level decoder does |
| RepositoryConfigs.RepositoryConfig.ReadGroup | src/repops/models/repository.py:126-128 | the inner loop adds a block's records in order, or stops with the first record's error |
| RepositoryConfigs.RepositoryConfig.ToDict | src/repops/models/repository.py:136-158 | the nested loops produce exactly the value-level encoding |
| RepositoryConfigs.RepositoryConfig.WriteRecords | src/repops/models/repository.py:146-154 | the inner loop binds each listed name that has a record to its fields |
| RepositoryConfigs.RoundTripObject | src/repops/models/repository.py:118-158 | writing an object and reading it back gives an object with the same records |
| Manager.Load | src/repops/config/manager.py:41-55 | a null document is an empty collection; a mapping loads exactly when `from_dict` succeeds, giving its collection; every failure is a ConfigError without details, whose message starts "Failed to load configuration: " and carries the original message |
| Manager.ConfigManager.constructor | src/repops/config/manager.py:20-23 | a given path is used as is, otherwise the default under the home directory; nothing is loaded |
| Manager.ConfigManager.LoadConfig | src/repops/config/manager.py:33-55 | a given path replaces the current one; a missing file fails with FileNotFoundError before anything is read; a YAML error fails with InvalidConfigError; otherwise the result and the new loaded collection are those of `Load`; a failure keeps the earlier collection |
| Manager.ConfigManager.SaveConfig | src/repops/config/manager.py:57-76 | without a loaded collection it fails with ConfigError "No configuration to save"; otherwise it writes the collection's `to_dict` mapping; the collection is unchanged |
| Manager.ConfigManager.CreateNewConfig | src/repops/config/manager.py:83-86 | a fresh empty collection becomes the loaded one; the path is unchanged |
| Manager.ConfigManager.ValidateConfig | src/repops/config/manager.py:88-108 | with nothing loaded the result is exactly ["No configuration loaded"]; otherwise it is each record's issues, record by record in insertion order; nothing is modified |
| Manager.ConfigManager.ConfigInfo | src/repops/config/manager.py:110-131 | with nothing loaded only the path is reported; otherwise the summary of the loaded collection |
| Manager.CheckRecord | src/repops/config/manager.py:96-106 | the three checks on one record append exactly that record's issues |
| Manager.RecordIssues | src/repops/config/manager.py:96-106 | a record has at most three issues, and none exactly when it passes all three checks |
| Manager.RecordIssuesSpec | src/repops/config/manager.py:96-106 | the path, URL and branch issues are each reported exactly when their check fails |
| Manager.IssueInjective | src/repops/config/manager.py:98-106 | two issues about the same record are equal only when their problems are |
| Manager.IssuesEmptyIffAllPass | src/repops/config/manager.py:93-108 | there is no issue exactly when every record passes all three checks |
| Manager.IssuesBound | src/repops/config/manager.py:93-108 | at most three issues per record |
| Manager.IssuesAppend | src/repops/config/manager.py:95-108 | the issues of consecutive records are those of each part, in order |
| Manager.GroupSizesSpec | src/repops/config/manager.py:118-120 | the groups entry lists exactly the non-empty group lists, each with its length |
| Manager.CountServerPositive | src/repops/config/manager.py:127-130 | a server type's count is positive exactly when some record uses it |
| Manager.CountServerSum | src/repops/config/manager.py:127-130 | the counts of the three server types add up to the number of records |
| Manager.ServerCountsAt | src/repops/config/manager.py:127-130 | the count reported for a type is the number of records using it, and the type is reported exactly when it is used |
| Manager.ServerCountsSpec | src/repops/config/manager.py:127-130 | the server-type counts name exactly the types in use, each at least once, and they sum to the number of records |
| Manager.SummaryTotal | src/repops/config/manager.py:115-125 | under the invariant the reported total is the number of stored records |
| Text.Lower | repops/languages/base.py:31 | ASCII `str.lower`: same length, no upper-case letter remains, upper-case letters are shifted by 32 and every other character is kept |
| Text.StripEmptyIffBlank | src/repops/config/manager.py:101-106 | a string strips to nothing exactly when every character is ASCII whitespace as Python counts it (tab through carriage return, the separators 0x1C-0x1F, space) |
| Core.ToString | repops/core/repository.py:20-21 | `str(repo)` is the name, " (", the path and ")" |
| Core.Filter | repops/core/repository.py:58 | the filter keeps only repositories of exactly that language, taken from the list |
| Core.FilterRepositories | repops/core/repository.py:46-58 | no language gives the whole list; a language gives only exact (case-sensitive) matches |
| Core.FilterAppend | repops/core/repository.py:58 | filtering keeps list order: filtering a concatenation filters each part |
| Core.FilterCounts | repops/core/repository.py:58 | every occurrence of a matching repository is kept and every other one dropped |
| Core.FilterAllMatch | repops/core/repository.py:58 | a list whose entries all match passes unchanged |
| Core.RepositoryManager.constructor | repops/core/repository.py:27-28 | a new manager is empty |
| Core.RepositoryManager.AddRepository | repops/core/repository.py:30-36 | the repository is appended at the end and duplicates are kept |
| Loader.BuildEntry | repops/config/config_loader.py:59-71 | keys are read in the source's order: a missing name or path always skips the entry; a non-text path raises TypeError; with a textual path a missing language skips it; a built repository holds the entry's text; main_branch defaults to "main" and remote_url to none; an entry of text values always builds |
| Loader.LoadEntry | repops/config/config_loader.py:59-69 | an entry that is not a mapping raises TypeError; a mapping is built from its five keys |
| Loader.CreateRepositoryManager | repops/config/config_loader.py:42-72 | the loop succeeds exactly when the specification does; it returns a new manager holding the loaded repositories in input order, or the same error |
| Loader.LoadEntriesFailurePersists | repops/config/config_loader.py:59-71 | an error raised by one entry ends the whole load with that error |
| Loader.MissingKeyRefused | repops/config/config_loader.py:54-55 | a mapping without "repositories" is refused with the no-repositories error |
| Loader.EmptyListLoadsNothing | repops/config/config_loader.py:57-72 | an empty repositories list gives an empty manager |
| Loader.IncompleteEntrySkipped | repops/config/config_loader.py:59-71 | an entry lacking "name" or "path", or holding a textual path but no "language", is skipped and loading goes on |
| Loader.CompleteEntryAppended | repops/config/config_loader.py:59-68 | an entry with name, path and language is appended, with the default branch "main" and no remote |
| Loader.SampleLoads | repops/config/config_loader.py:75-98 | the sample configuration loads as repo1 (python, main) and repo2 (javascript, master), every key as written |
| Shell.IssuedSpec | repops/operations/github.py:28-80 | running a plan issues its commands up to and including the first that fails; it succeeds exactly when none fails |
| Shell.IssuedStopsAtFailure | repops/operations/github.py:28-80 | every issued command but the last succeeded; a failing plan ends on a failing command; a succeeding plan issues everything |
| Shell.IssuedAppend | repops/operations/github.py:28-80 | the second of two plans run back to back is reached only if the whole first succeeds |
| OperationBase.PlanOutcome | repops/operations/base.py:11-24 | refusing returns false; raising is the only way to have no result; running commands returns true exactly when every one succeeds |
| OperationBase.GitOperationRaises | repops/operations/base.py:39-49 | the git base `execute` raises whatever the repository and runs nothing |
| OperationBase.NewPullRequest | repops/operations/base.py:58-60 | the title is stored and the description defaults to none |
| OperationBase.PullRequestAlwaysSucceeds | repops/operations/base.py:62-73 | the placeholder pull request returns true and runs no command |
| OperationBase.ExecutePullRequest | repops/operations/base.py:62-73 | the method returns what the placeholder plan gives and logs nothing |
| GitOps.PullSpec | repops/operations/git.py:23-34 | pulling runs exactly `git pull origin <main branch>` in the repository, and returns true exactly when it succeeds |
| GitOps.ExecutePull | repops/operations/git.py:14-34 | the method runs the pull plan's commands and returns its result |
| GitOps.BranchName | repops/operations/git.py:74-75 | the name is "Create Branch: " followed by the branch name |
| GitOps.BranchSpec | repops/operations/git.py:55-72 | the main branch is checked out first; the new branch is created only if that succeeds; the result is true exactly when both succeed |
| GitOps.ExecuteBranch | repops/operations/git.py:46-72 | the method runs the branch plan's commands and returns its result |
| GitHubOps.BaseBranch | repops/operations/github.py:36 | the configured base branch when non-empty, otherwise the repository's main branch |
| GitHubOps.AfterQueries | repops/operations/github.py:43-69 | once both queries succeed, add and commit run only when the status is non-blank; push runs only after them, and pull-request creation only after a successful push |
| GitHubOps.PullRequestLog | repops/operations/github.py:28-80 | the current-branch query runs first and the status query only after it; the rest runs only if both succeed; the result is true exactly when every step run succeeds |
| GitHubOps.ExecuteGitHubPullRequest | repops/operations/github.py:19-80 | the method runs the plan's commands, stopping at the first failure, and returns its result |
| GitHubOps.Publish | repops/operations/github.py:43-73 | after the queries: commit if needed, then push and create, each step only after success |
| GitHubOps.CommitChanges | repops/operations/github.py:44-51 | add then commit when there are changes, nothing otherwise |
| GitHubOps.PushAndCreate | repops/operations/github.py:54-69 | push the current branch, then create the pull request only if the push succeeded |
| LanguageBase.LanguagesDisjoint | repops/languages/base.py:27-49 | no language is accepted by both the Python and the JavaScript operations |
| LanguageBase.SupportIgnoresCase | repops/languages/base.py:30-49 | acceptance depends only on the lower-cased language |
| LanguageBase.BaseGate | repops/languages/base.py:36-60 | the base `execute` runs nothing; it returns false exactly on a repository in another language and raises exactly on its own languages |
| LanguageBase.BasesNeverBothRaise | repops/languages/base.py:36-60 | on every repository at least one of the two bases returns false instead of raising |
| PythonOps.LintName | repops/languages/python.py:51-52 | the name starts "Python Lint ", and is exactly that (with its trailing space) without fixing |
| PythonOps.LintNameMentionsAutofix | repops/languages/python.py:51-52 | the name contains "(autofix)" exactly when fixing |
| PythonOps.LintSpec | repops/languages/python.py:28-49 | another language returns false with no command; otherwise it runs one command, `flake8` or `autopep8` by `fix` on the repository path, and returns true exactly when it succeeds |
| PythonOps.ExecuteLint | repops/languages/python.py:19-49 | the method runs the lint plan's command and returns its result |
| PythonOps.JoinPath | repops/languages/python.py:74 | `os.path.join` with a relative name: the directory, then at most one separator, then the name |
| PythonOps.TestLocation | repops/languages/python.py:74 | the test path when non-empty, else `<repo>/tests` |
| PythonOps.UnitTestSpec | repops/languages/python.py:70-88 | another language returns false with no command; otherwise it runs `pytest <location> -v` once in the repository and returns true exactly when it succeeds |
| PythonOps.DefaultTestLocation | repops/languages/python.py:74 | without a test path the location starts with the repository path and ends in "/tests" |
| PythonOps.ExecuteUnitTest | repops/languages/python.py:61-88 | the method runs the test plan's command and returns its result |
| JavaScriptOps.LintName | repops/languages/javascript.py:49-50 | the name starts "JavaScript Lint ", and is exactly that without fixing |
| JavaScriptOps.LintNameMentionsAutofix | repops/languages/javascript.py:49-50 | the name contains "(autofix)" exactly when fixing |
| JavaScriptOps.LintSpec | repops/languages/javascript.py:26-47 | another language returns false with no command; otherwise it runs `npm run lint` in the repository, with "--fix" passed exactly when fixing, and returns true exactly when it succeeds |
| JavaScriptOps.ExecuteLint | repops/languages/javascript.py:17-47 | the method runs the lint plan's command and returns its result |
| JavaScriptOps.BuildSpec | repops/languages/javascript.py:65-82 | another language returns false with no command; otherwise install runs, build runs only after a successful install, and the result is true exactly when both succeed |
| JavaScriptOps.ExecuteBuild | repops/languages/javascript.py:56-82 | the method runs the build plan's commands and returns its result |
| Operations.RaisesExactly | repops/languages/base.py:36-60 | only the git base (always) and a language base (on its own languages) raise, and a raising operation runs nothing |
| Operations.WrongLanguageRefused | repops/languages/python.py:28-29 | every language-bound operation returns false on a repository in another language and runs nothing there |
| Operations.StepAgreesWithLog | repops/operations/git.py:55-72 | every operation stops at its first failing command: all logged commands but the last succeeded; a true result means all succeeded; a false result after running something ends on a failure |
| Operations.Execute | repops/operations/base.py:14-24 | dispatching on the class runs exactly that class's commands and returns its outcome |
| Pipelines.RunRepoShape | repops/pipelines/pipeline.py:37-45 | a repository's list has at most one entry per operation and is empty only without operations; all entries but the last are true; a list shorter than the operations ends in false |
| Pipelines.RunRepoEntries | repops/pipelines/pipeline.py:38-45 | entry i is operation i's outcome on that repository, and only the operations with an entry ran: the repository's commands are theirs, in order |
| Pipelines.RunRepoAllSucceed | repops/pipelines/pipeline.py:38-47 | when every operation succeeds, the list is full length and all true, and every operation ran |
| Pipelines.RunRepoAllTrueOnlyIfAllSucceed | repops/pipelines/pipeline.py:38-45 | a full-length, all-true list means every operation succeeded |
| Pipelines.RunAllNone | repops/pipelines/pipeline.py:40 | the run aborts exactly when some repository's run raises |
| Pipelines.RunAllAbort | repops/pipelines/pipeline.py:35-49 | once a repository's run has raised, nothing more is run |
| Pipelines.RunAllKeys | repops/pipelines/pipeline.py:35-47 | the result's keys are exactly the repositories' names |
| Pipelines.RunAllValues | repops/pipelines/pipeline.py:36-47 | each name maps to the list of the last repository of that name, computed from that repository and the operations alone |
| Pipelines.DistinctNames | repops/pipelines/pipeline.py:35-47 | with distinct names there is one entry per repository, each that repository's own list |
| Pipelines.Pipeline.constructor | repops/pipelines/pipeline.py:14-16 | a new pipeline has the given name and no operations |
| Pipelines.Pipeline.AddOperation | repops/pipelines/pipeline.py:18-24 | the operation is appended at the end; earlier operations and the name stay |
| Pipelines.Pipeline.Execute | repops/pipelines/pipeline.py:26-49 | the nested loop returns the specified mapping (or aborts on a raise), runs exactly the specified commands, and changes neither the pipeline nor the manager |
| Pipelines.Pipeline.RunOnRepository | repops/pipelines/pipeline.py:37-45 | the inner loop records each outcome and stops at the first false, as the specification says |
| PipelineExamples.AllSucceedScenario | tests/test_pipeline.py:61-82 | two always-succeeding operations on repo1 and repo2 give both repositories [true, true] |
| PipelineExamples.SecondFailsScenario | tests/test_pipeline.py:85-106 | when the second of three operations fails everywhere, both repositories get [true, false] and the third is not run |
| PipelineExamples.LanguageScenario | repops/languages/python.py:28-29 | when every command succeeds, the placeholder pull request succeeds on both repositories, and Python linting succeeds on repo1 but refuses repo2 |

The contracts above are stated about these definitions, which model the source directly:

- `Models.RepositoryFromDict`: `Repository.from_dict`, src/repops/models/repository.py:46-63.
- `Models.Add`: `add_repository`, src/repops/models/repository.py:86-94.
- `Models.Remove`: `remove_repository`, src/repops/models/repository.py:96-105.
- `Codec.Decode`: `RepositoryConfig.from_dict`, src/repops/models/repository.py:118-134.
- `Codec.Encode`: `RepositoryConfig.to_dict`, src/repops/models/repository.py:136-158.
- `Manager.Issues`: the loop of `validate_config`, src/repops/config/manager.py:93-108.
- `Manager.Summary`: `get_config_info` with a loaded collection, src/repops/config/manager.py:115-131.
- `Loader.Load`: `_create_repository_manager`, repops/config/config_loader.py:42-72.
- `Loader.LoadEntries`: its loop, repops/config/config_loader.py:59-71.
- `Pipelines.RunRepo` and `Pipelines.RepoLog`: the inner loop of `execute`, repops/pipelines/pipeline.py:37-45.
- `Pipelines.RunAll` and `Pipelines.AllLog`: the whole of `execute`, repops/pipelines/pipeline.py:35-49.
- `Shell.Issued`: the `check=True` runs inside one `try` block, which stop at the first non-zero exit, e.g. repops/operations/git.py:57-72.
- `Operations.Step` and `Operations.Log`: `operation.execute(repo)`, repops/pipelines/pipeline.py:40.
- The plan of each operation:
  - `OperationBase.GitOperationPlan`: repops/operations/base.py:39-49.
  - `OperationBase.PullRequestPlan`: repops/operations/base.py:62-73.
  - `GitOps.PullPlan`: repops/operations/git.py:23-34.
  - `GitOps.BranchPlan`: repops/operations/git.py:55-72.
  - `GitHubOps.GitHubPlan`: repops/operations/github.py:28-80.
  - `LanguageBase.PythonBasePlan`: repops/languages/base.py:36-42.
  - `LanguageBase.JavaScriptBasePlan`: repops/languages/base.py:54-60.
  - `PythonOps.LintPlan`: repops/languages/python.py:28-49.
  - `PythonOps.UnitTestPlan`: repops/languages/python.py:70-88.
  - `JavaScriptOps.LintPlan`: repops/languages/javascript.py:26-47.
  - `JavaScriptOps.BuildPlan`: repops/languages/javascript.py:65-82.
- `LanguageBase.SupportsPython`: `PythonOperation.supports_language`, repops/languages/base.py:30-31.
- `LanguageBase.SupportsJavaScript`: `JavaScriptOperation.supports_language`, repops/languages/base.py:48-49.
- `Loader.SampleConfig`: `get_sample_config`, repops/config/config_loader.py:75-98.
- `Core.RepositoryManager.GetRepositories`: `get_repositories`, repops/core/repository.py:38-44.
- `Manager.IsAbsolute` and `Manager.Passes`: the three checks of `validate_config`, src/repops/config/manager.py:96-106.

## Left out

- YAML parsing and dumping, file-existence checks, `mkdir` and `open` are left out. The decoded document is a parameter (`Document.Value`). `SaveConfig` returns the mapping it would write, and does not model the "Failed to save configuration" error.
- The lazy `config` property of `ConfigManager` is left out: it only triggers a file load.
- Real subprocess execution, and all printing of stdout, stderr, progress and error messages (including the tool name the lint operations print), are left out. The command runner is an oracle.
- The oracle is stateless: a command's answer does not depend on the commands run before it, so effects of one command on the next (a checkout seen by a later command) are not modelled.
- `CalledProcessError` and every other exception raised while running a command are not told apart. Both give `False`, as in the source.
- Logging calls are left out; they carry no behaviour.
- Paths are strings:
  - `is_absolute` is POSIX "starts with '/'";
  - `str(Path(x))` normalisation is not modelled;
  - `os.path.join` is modelled only for a relative second argument.
- `lower` and `strip` are modelled on ASCII only. There is no Unicode case folding or whitespace beyond ASCII.
- A record field that holds something other than text is reported as `NotAString`, where Python would store the value or raise its own `TypeError`/`AttributeError`. `Manager.DecodeErrorText` and `Manager.Load` give such errors, and a non-mapping document, a message of the model's own.
- Loader.BuildEntry: Python keeps a non-string name, branch, language or remote URL as is. The model reports these as `NotAString`, and a non-string path as the `TypeError` that `Path()` raises.
- Loader.Load: iterating the "repositories" value is modelled for lists, mappings (their keys) and strings (their characters). A number or null raises `TypeError`.
- Pipelines.RunAll: the result is a Dafny `map`, so the insertion order of the result dictionary's keys is not modelled.
- A decoded mapping (`Document.Value`'s `Dict`) may repeat a key, which no mapping a YAML decoder returns does. The decoders are defined on such documents too, and nothing here relies on them.
- Manager.Summary: the `groups` and `server_types` entries are Dafny `map`s, so the insertion order of those dictionaries' keys is not modelled.
- Mapping keys in the decoded document are text only. A YAML key of another type (`123:` as a repository or group name), which Python would store as is, cannot be expressed.
- `Pipeline.name` is stored but never read. `get_name` of each operation is modelled (`Operations.Name`), but it is only printed by the pipeline.
- `RepositoryManager.get_repositories` returns the list itself; the aliasing of that list with the manager is not modelled.
- The `MockOperation` of the pipeline tests is not one of the closed union of operations. The test scenarios use a step function with fixed outcomes instead.
- The CLI surfaces (`src/repops/cli/main.py`, `repops/cli.py`, `main.py`) are not part of this model. Neither are the `src/repops/core/app.py` façade and the package re-export files.
