/**
 * The configuration manager: where the configuration file lives, whether a collection is
 * loaded, and the checks and summary it computes over the loaded collection.
 *
 * The file system and the YAML codec stay outside: whether the file exists and what the
 * decoder produced are given to `LoadConfig`, and `SaveConfig` returns the mapping it
 * would write.
 */
module Manager {
  import opened Wrappers
  import opened Text
  import opened Errors
  import opened Document
  import opened Models
  import opened Codec
  import opened RepositoryConfigs

  // ---------------------------------------------------------------- loading

  /** The default location, under the user's home directory. */
  function DefaultConfigPath(home: string): string {
    home + "/.config/repops/repos.yml"
  }

  /** What the YAML decoder made of the file: a syntax error with its text, or a value. */
  datatype Parsed = YamlError(text: string) | Document(doc: Value)

  const NotFoundPrefix: string := "Configuration file not found: "
  const InvalidYamlPrefix: string := "Invalid YAML in config file: "
  const LoadFailedPrefix: string := "Failed to load configuration: "

  /** The text of an error raised while reading records; for Python's own exceptions the model
      gives a description of its own. */
  function DecodeErrorText(e: DecodeError): string {
    match e
    case Raised(err) => err.message
    case NotAString(field) => "field '" + field + "' is not a string"
  }

  /**
   * Reading a decoded document: an empty document is an empty mapping, a mapping is read by
   * `from_dict`, and any error is re-raised as a configuration error whose message carries
   * the original one.
   */
  function Load(doc: Value): (r: Result<Config, Error>)
    ensures doc.Null? ==> r == Success(EmptyConfig)
    ensures doc.Dict? ==> (r.Success? <==> Decode(doc.entries).Success?)
    ensures doc.Dict? && r.Success? ==> r.value == Decode(doc.entries).value
    ensures !doc.Null? && !doc.Dict? ==> r.Failure?
    ensures r.Failure? ==> r.error.cls == ConfigError && r.error.details == map[] && StartsWith(r.error.message, LoadFailedPrefix)
    ensures doc.Dict? && Decode(doc.entries).Failure? ==>
      r.error.message == LoadFailedPrefix + DecodeErrorText(Decode(doc.entries).error)
  {
    var data := if doc.Null? then Dict([]) else doc;
    if !data.Dict? then
      Failure(NewError(ConfigError, LoadFailedPrefix + "the document is not a mapping", None))
    else
      match Decode(data.entries)
      case Success(c) => Success(c)
      case Failure(e) => Failure(NewError(ConfigError, LoadFailedPrefix + DecodeErrorText(e), None))
  }

  // ---------------------------------------------------------------- validation

  /** POSIX `is_absolute`: the path starts at the root. */
  predicate IsAbsolute(path: string) {
    |path| > 0 && path[0] == '/'
  }

  /** A record passes validation: absolute path, and URL and default branch that do not strip to nothing. */
  predicate Passes(r: Repository) {
    IsAbsolute(r.localPath) && !Blank(r.url) && !Blank(r.defaultBranch)
  }

  const PathProblem: string := "local path must be absolute"
  const UrlProblem: string := "URL cannot be empty"
  const BranchProblem: string := "default branch cannot be empty"

  /** An issue names the record and the problem. */
  function Issue(name: string, problem: string): string {
    "Repository '" + name + "': " + problem
  }

  /** The record name and the problem can be read back from an issue. */
  lemma IssueInjective(name: string, a: string, b: string)
    ensures Issue(name, a) == Issue(name, b) ==> a == b
  {
    var k := |"Repository '" + name + "': "|;
    if Issue(name, a) == Issue(name, b) {
      assert a == Issue(name, a)[k..] && b == Issue(name, b)[k..];
    }
  }

  function PathIssue(name: string): string { Issue(name, PathProblem) }
  function UrlIssue(name: string): string { Issue(name, UrlProblem) }
  function BranchIssue(name: string): string { Issue(name, BranchProblem) }

  /** The issues of one record, in the order they are checked. */
  function RecordIssues(r: Repository): (issues: seq<string>)
    ensures |issues| <= 3
    ensures issues == [] <==> Passes(r)
  {
    (if !IsAbsolute(r.localPath) then [PathIssue(r.name)] else [])
    + (if Blank(r.url) then [UrlIssue(r.name)] else [])
    + (if Blank(r.defaultBranch) then [BranchIssue(r.name)] else [])
  }

  /** Each issue is reported exactly when its check fails. */
  lemma RecordIssuesSpec(r: Repository)
    ensures PathIssue(r.name) in RecordIssues(r) <==> !IsAbsolute(r.localPath)
    ensures UrlIssue(r.name) in RecordIssues(r) <==> Blank(r.url)
    ensures BranchIssue(r.name) in RecordIssues(r) <==> Blank(r.defaultBranch)
  {
    IssueInjective(r.name, PathProblem, UrlProblem);
    IssueInjective(r.name, PathProblem, BranchProblem);
    IssueInjective(r.name, UrlProblem, BranchProblem);
  }

  /** The issues of a list of records, record by record. */
  function Issues(rs: seq<Repository>): seq<string> {
    if rs == [] then [] else Issues(rs[..|rs| - 1]) + RecordIssues(rs[|rs| - 1])
  }

  /** There is no issue exactly when every record passes all three checks. */
  lemma {:induction false} IssuesEmptyIffAllPass(rs: seq<Repository>)
    ensures Issues(rs) == [] <==> forall i :: 0 <= i < |rs| ==> Passes(rs[i])
  {
    if rs != [] {
      var init := rs[..|rs| - 1];
      var last := rs[|rs| - 1];
      IssuesEmptyIffAllPass(init);
      assert Issues(rs) == Issues(init) + RecordIssues(last);
      assert Issues(rs) == [] <==> Issues(init) == [] && RecordIssues(last) == [];
      assert (forall i :: 0 <= i < |rs| ==> Passes(rs[i])) <==>
        (forall i :: 0 <= i < |init| ==> Passes(init[i])) && Passes(last);
    }
  }

  /** Each record contributes at most three issues. */
  lemma {:induction false} IssuesBound(rs: seq<Repository>)
    ensures |Issues(rs)| <= 3 * |rs|
  {
    if rs != [] {
      IssuesBound(rs[..|rs| - 1]);
    }
  }

  /** The issues of a concatenation are those of each part, in order. */
  lemma {:induction false} IssuesAppend(a: seq<Repository>, b: seq<Repository>)
    ensures Issues(a + b) == Issues(a) + Issues(b)
    decreases |b|
  {
    if b == [] {
      assert a + b == a;
    } else {
      var b' := b[..|b| - 1];
      var last := b[|b| - 1];
      assert (a + b)[..|a + b| - 1] == a + b';
      assert (a + b)[|a + b| - 1] == last;
      assert Issues(a + b) == Issues(a + b') + RecordIssues(last);
      IssuesAppend(a, b');
      assert Issues(b) == Issues(b') + RecordIssues(last);
      assert (Issues(a) + Issues(b')) + RecordIssues(last) == Issues(a) + (Issues(b') + RecordIssues(last));
    }
  }

  // ---------------------------------------------------------------- summary

  /** What `get_config_info` reports. Without a collection only the path is reported. */
  datatype Info =
    | NotLoaded(path: string)
    | Loaded(path: string, totalRepositories: nat, groups: map<string, nat>, serverTypes: map<string, nat>)

  /** How many of `rs` use server type `t`. */
  function CountServer(rs: seq<Repository>, t: ServerType): (n: nat)
    ensures n <= |rs|
  {
    if rs == [] then 0
    else CountServer(rs[..|rs| - 1], t) + (if rs[|rs| - 1].serverType == t then 1 else 0)
  }

  /** The size of every non-empty group list, by group name. */
  function GroupSizes(c: Config): (m: map<string, nat>) {
    map g | g in c.groups && c.groups[g] != [] :: |c.groups[g]|
  }

  /** For each server type in use, how many records use it, by the type's value. */
  function ServerCounts(rs: seq<Repository>): (m: map<string, nat>) {
    map t | t in (set r | r in rs :: r.serverType) :: ServerValue(t) := CountServer(rs, t)
  }

  /** The summary of a collection stored at `path`. */
  function Summary(path: string, c: Config): Info
    requires forall i :: 0 <= i < |c.order| ==> c.order[i] in c.repositories
  {
    var all := AllRepositories(c);
    Loaded(path, |all|, GroupSizes(c), ServerCounts(all))
  }

  /** The group sizes list exactly the non-empty groups, each with its list length. */
  lemma GroupSizesSpec(c: Config)
    ensures forall g :: g in GroupSizes(c) <==> g in c.groups && |c.groups[g]| > 0
    ensures forall g :: g in GroupSizes(c) ==> GroupSizes(c)[g] == |c.groups[g]|
  {
  }

  lemma {:induction false} CountServerPositive(rs: seq<Repository>, t: ServerType)
    ensures CountServer(rs, t) > 0 <==> exists r :: r in rs && r.serverType == t
  {
    if rs != [] {
      var init := rs[..|rs| - 1];
      CountServerPositive(init, t);
      assert rs == init + [rs[|rs| - 1]];
      assert forall r :: r in rs <==> r in init || r == rs[|rs| - 1];
    }
  }

  lemma {:induction false} CountServerSum(rs: seq<Repository>)
    ensures CountServer(rs, GitHub) + CountServer(rs, AzureDevOps) + CountServer(rs, GitLab) == |rs|
  {
    if rs != [] {
      CountServerSum(rs[..|rs| - 1]);
    }
  }

  /** Distinct server types have distinct values. */
  lemma ServerValueInjective(a: ServerType, b: ServerType)
    ensures ServerValue(a) == ServerValue(b) ==> a == b
  {
  }

  /** The count reported for one server type is the number of records using it (zero: not reported). */
  lemma ServerCountsAt(rs: seq<Repository>, t: ServerType)
    ensures CountIn(ServerCounts(rs), ServerValue(t)) == CountServer(rs, t)
    ensures ServerValue(t) in ServerCounts(rs) <==> exists r :: r in rs && r.serverType == t
  {
    var used := set r | r in rs :: r.serverType;
    var m := ServerCounts(rs);
    CountServerPositive(rs, t);
    if ServerValue(t) in m {
      var u :| u in used && ServerValue(u) == ServerValue(t);
      ServerValueInjective(u, t);
    }
  }

  /**
   * The server-type counts name exactly the types in use, each at least once, and they add
   * up to the number of records.
   */
  lemma ServerCountsSpec(rs: seq<Repository>)
    ensures forall t :: ServerValue(t) in ServerCounts(rs) <==> exists r :: r in rs && r.serverType == t
    ensures forall t :: CountIn(ServerCounts(rs), ServerValue(t)) == CountServer(rs, t)
    ensures forall k :: k in ServerCounts(rs) ==> k in ServerValues && ServerCounts(rs)[k] >= 1
    ensures CountIn(ServerCounts(rs), ServerValue(GitHub)) + CountIn(ServerCounts(rs), ServerValue(AzureDevOps))
      + CountIn(ServerCounts(rs), ServerValue(GitLab)) == |rs|
  {
    var m := ServerCounts(rs);
    forall t ensures CountIn(m, ServerValue(t)) == CountServer(rs, t)
      && (ServerValue(t) in m <==> exists r :: r in rs && r.serverType == t) {
      ServerCountsAt(rs, t);
    }
    forall k | k in m ensures k in ServerValues && m[k] >= 1 {
      var t :| t in (set r | r in rs :: r.serverType) && ServerValue(t) == k;
      ServerCountsAt(rs, t);
      CountServerPositive(rs, t);
    }
    CountServerSum(rs);
  }

  /** A count looked up in a summary mapping, zero when absent. */
  function CountIn(m: map<string, nat>, k: string): nat {
    if k in m then m[k] else 0
  }

  // ---------------------------------------------------------------- the manager object

  class ConfigManager {
    var configPath: string
    /** The loaded collection, if any. */
    var config: RepositoryConfig?

    ghost predicate Valid()
      reads this, config
    {
      config != null ==> config.Valid()
    }

    /** A given path is used as is; otherwise the default under `home`. Nothing is loaded yet. */
    constructor(path: Option<string>, home: string)
      ensures configPath == if path.Some? then path.value else DefaultConfigPath(home)
      ensures config == null
      ensures Valid()
    {
      configPath := if path.Some? then path.value else DefaultConfigPath(home);
      config := null;
    }

    /**
     * `load_config`: a given path replaces the current one; a missing file is reported
     * before anything is read; a YAML error is an invalid-configuration error; otherwise the
     * document is read and, on success, becomes the loaded collection. On any error the
     * previously loaded collection stays.
     */
    method LoadConfig(path: Option<string>, fileExists: bool, parsed: Parsed) returns (r: Result<RepositoryConfig, Error>)
      requires Valid()
      modifies this
      ensures Valid()
      ensures configPath == if path.Some? then path.value else old(configPath)
      ensures !fileExists ==> r == Failure(NewError(FileNotFoundError, NotFoundPrefix + configPath, None))
      ensures fileExists && parsed.YamlError? ==>
        r == Failure(NewError(InvalidConfigError, InvalidYamlPrefix + parsed.text, None))
      ensures fileExists && parsed.Document? ==>
        && (r.Success? <==> Load(parsed.doc).Success?)
        && (r.Success? ==> fresh(r.value) && config == r.value && r.value.Value() == Load(parsed.doc).value)
        && (r.Failure? ==> r.error == Load(parsed.doc).error)
      ensures r.Failure? ==> config == old(config)
    {
      if path.Some? {
        configPath := path.value;
      }
      if !fileExists {
        return Failure(NewError(FileNotFoundError, NotFoundPrefix + configPath, None));
      }
      if parsed.YamlError? {
        return Failure(NewError(InvalidConfigError, InvalidYamlPrefix + parsed.text, None));
      }
      var data := parsed.doc;
      if data.Null? {
        data := Dict([]);
      }
      if !data.Dict? {
        return Failure(NewError(ConfigError, LoadFailedPrefix + "the document is not a mapping", None));
      }
      var loaded := RepositoryConfig.FromDict(data.entries);
      if loaded.Failure? {
        return Failure(NewError(ConfigError, LoadFailedPrefix + DecodeErrorText(loaded.error), None));
      }
      config := loaded.value;
      return Success(loaded.value);
    }

    /**
     * `save_config`: a given path replaces the current one; without a loaded collection it
     * fails before anything is written; otherwise it yields the mapping `to_dict` produces.
     */
    method SaveConfig(path: Option<string>) returns (r: Result<Entries, Error>)
      modifies this
      ensures configPath == if path.Some? then path.value else old(configPath)
      ensures config == old(config)
      ensures config == null ==> r == Failure(NewError(ConfigError, "No configuration to save", None))
      ensures config != null ==> r == Success(Encode(config.Value()))
    {
      if path.Some? {
        configPath := path.value;
      }
      if config == null {
        return Failure(NewError(ConfigError, "No configuration to save", None));
      }
      var data := config.ToDict();
      return Success(data);
    }

    /** `create_new_config`: a new empty collection becomes the loaded one. */
    method CreateNewConfig() returns (c: RepositoryConfig)
      modifies this
      ensures fresh(c) && config == c && configPath == old(configPath)
      ensures c.Value() == EmptyConfig
      ensures Valid()
    {
      c := new RepositoryConfig();
      config := c;
    }

    /** `validate_config`: without a collection, a single issue; otherwise every record's
        issues, record by record in insertion order. Nothing is changed. */
    method ValidateConfig() returns (issues: seq<string>)
      requires Valid()
      ensures config == null ==> issues == ["No configuration loaded"]
      ensures config != null ==> issues == Issues(AllRepositories(config.Value()))
    {
      if config == null {
        return ["No configuration loaded"];
      }
      var all := AllRepositories(config.Value());
      issues := [];
      var i := 0;
      while i < |all|
        invariant 0 <= i <= |all|
        invariant issues == Issues(all[..i])
      {
        assert all[..i + 1][..i] == all[..i];
        var found := CheckRecord(all[i]);
        issues := issues + found;
        i := i + 1;
      }
      assert all[..i] == all;
    }

    /** `get_config_info`. */
    function ConfigInfo(): (info: Info)
      requires Valid()
      reads this, config
      ensures config == null ==> info == NotLoaded(configPath)
      ensures config != null ==> info == Summary(configPath, config.Value())
    {
      if config == null then NotLoaded(configPath) else Summary(configPath, config.Value())
    }
  }

  /** The three checks of `validate_config` on one record, appending an issue for each that fails. */
  method CheckRecord(r: Repository) returns (issues: seq<string>)
    ensures issues == RecordIssues(r)
  {
    ghost var path := if !IsAbsolute(r.localPath) then [PathIssue(r.name)] else [];
    ghost var url := if Blank(r.url) then [UrlIssue(r.name)] else [];
    ghost var branch := if Blank(r.defaultBranch) then [BranchIssue(r.name)] else [];
    issues := [];
    if !IsAbsolute(r.localPath) {
      issues := issues + [PathIssue(r.name)];
    }
    assert issues == path;
    StripEmptyIffBlank(r.url);
    if Strip(r.url) == "" {
      issues := issues + [UrlIssue(r.name)];
    }
    assert issues == path + url;
    StripEmptyIffBlank(r.defaultBranch);
    if Strip(r.defaultBranch) == "" {
      issues := issues + [BranchIssue(r.name)];
    }
    assert issues == path + url + branch;
  }

  /** The reported total is the number of stored records. */
  lemma SummaryTotal(path: string, c: Config)
    requires Valid(c)
    ensures Summary(path, c).totalRepositories == |c.repositories|
  {
    AllRepositoriesComplete(c);
  }
}
