/**
 * The prototype's configuration loader: turning the decoded configuration document into a
 * repository manager, entry by entry, skipping entries that lack a required key.
 *
 * The document is given already decoded; reading the file and the YAML parser stay outside.
 */
module Loader {
  import opened Wrappers
  import opened Text
  import opened Document
  import Core

  /**
   * Why loading stopped: the document has no "repositories" key (a `ValueError`), Python
   * raised a `TypeError` on a value of the wrong shape, or a field the model keeps as text
   * holds something else.
   */
  datatype LoadError = NoRepositories | TypeError | NotAString(field: string)

  const NoRepositoriesMessage: string := "No repositories defined in configuration"
  const RepositoriesKey: string := "repositories"

  /** Python's `"repositories" in config_data` for each shape the document can take;
      `None` marks the shapes on which the test itself raises `TypeError`. */
  function HasRepositoriesKey(data: Value): Option<bool> {
    match data
    case Dict(es) => Some(RepositoriesKey in Keys(es))
    case List(items) => Some(Str(RepositoriesKey) in items)
    case Str(s) => Some(Contains(s, RepositoriesKey))
    case Null => None
    case Scalar => None
  }

  /**
   * The repository built from what the entry holds under "name", "path", "main_branch",
   * "language" and "remote_url" (`None`: the key is absent). Keys are read in the order
   * name, path, main branch, language, remote URL: a missing required key skips the entry
   * (`Success(None)`), `main_branch` defaults to "main" and `remote_url` to none.
   */
  function BuildEntry(name: Option<Value>, path: Option<Value>, branch: Option<Value>,
                      language: Option<Value>, remote: Option<Value>): (r: Result<Option<Core.Repository>, LoadError>)
    ensures name.None? ==> r == Success(None)
    ensures name.Some? && path.None? ==> r == Success(None)
    ensures name.Some? && path.Some? && !path.value.Str? ==> r == Failure(TypeError)
    ensures name.Some? && path.Some? && path.value.Str? && language.None? ==> r == Success(None)
    ensures r.Success? && r.value.Some? ==>
      var rep := r.value.value;
      && name == Some(Str(rep.name)) && path == Some(Str(rep.path)) && language == Some(Str(rep.language))
      && (if branch.Some? then branch == Some(Str(rep.mainBranch)) else rep.mainBranch == "main")
      && (rep.remoteUrl.None? <==> remote.None? || remote == Some(Null))
      && (rep.remoteUrl.Some? ==> remote == Some(Str(rep.remoteUrl.value)))
    ensures (&& name.Some? && path.Some? && language.Some?
             && name.value.Str? && path.value.Str? && language.value.Str?
             && (branch.None? || branch.value.Str?)
             && (remote.None? || remote.value.Null? || remote.value.Str?)) ==> r.Success? && r.value.Some?
  {
    match name
    case None => Success(None)
    case Some(n) =>
      match path
      case None => Success(None)
      case Some(p) =>
        if !p.Str? then Failure(TypeError)
        else
          var b := branch.GetOr(Str("main"));
          match language
          case None => Success(None)
          case Some(l) =>
            var u := remote.GetOr(Null);
            if !n.Str? then Failure(NotAString("name"))
            else if !b.Str? then Failure(NotAString("main_branch"))
            else if !l.Str? then Failure(NotAString("language"))
            else if !(u.Null? || u.Str?) then Failure(NotAString("remote_url"))
            else
              var url := if u.Str? then Some(u.s) else None;
              Success(Some(Core.Repository(n.s, p.s, b.s, l.s, url)))
  }

  /** One entry of the list: an entry that is not a mapping raises `TypeError`. */
  function LoadEntry(entry: Value): (r: Result<Option<Core.Repository>, LoadError>)
    ensures !entry.Dict? ==> r == Failure(TypeError)
    ensures entry.Dict? ==> r == BuildEntry(Lookup(entry.entries, "name"), Lookup(entry.entries, "path"),
      Lookup(entry.entries, "main_branch"), Lookup(entry.entries, "language"), Lookup(entry.entries, "remote_url"))
  {
    if !entry.Dict? then Failure(TypeError)
    else
      var es := entry.entries;
      BuildEntry(Lookup(es, "name"), Lookup(es, "path"), Lookup(es, "main_branch"), Lookup(es, "language"), Lookup(es, "remote_url"))
  }

  /** The entries of the list in order: kept repositories appended, skipped ones dropped,
      the first error ending the load. */
  function LoadEntries(items: seq<Value>): Result<seq<Core.Repository>, LoadError> {
    if items == [] then Success([])
    else
      match LoadEntries(items[..|items| - 1])
      case Failure(e) => Failure(e)
      case Success(prev) =>
        match LoadEntry(items[|items| - 1])
        case Failure(e) => Failure(e)
        case Success(None) => Success(prev)
        case Success(Some(rep)) => Success(prev + [rep])
  }

  /** What iterating over the "repositories" value yields: a list its items, a mapping its keys,
      a string its characters; iterating anything else raises `TypeError`. */
  function Iterated(v: Value): Result<seq<Value>, LoadError> {
    match v
    case List(items) => Success(items)
    case Dict(es) => Success(seq(|es|, i requires 0 <= i < |es| => Str(es[i].0)))
    case Str(s) => Success(seq(|s|, i requires 0 <= i < |s| => Str([s[i]])))
    case Null => Failure(TypeError)
    case Scalar => Failure(TypeError)
  }

  /** `_create_repository_manager` on a decoded document, as a value: the repositories it adds, in order. */
  function Load(data: Value): Result<seq<Core.Repository>, LoadError> {
    match HasRepositoriesKey(data)
    case None => Failure(TypeError)
    case Some(false) => Failure(NoRepositories)
    case Some(true) =>
      if !data.Dict? then Failure(TypeError)
      else
        match Iterated(Lookup(data.entries, RepositoriesKey).value)
        case Failure(e) => Failure(e)
        case Success(items) => LoadEntries(items)
  }

  /** `_create_repository_manager`: a new manager filled entry by entry. */
  method CreateRepositoryManager(data: Value) returns (r: Result<Core.RepositoryManager, LoadError>)
    ensures r.Success? <==> Load(data).Success?
    ensures r.Success? ==> fresh(r.value) && r.value.repositories == Load(data).value
    ensures r.Failure? ==> r.error == Load(data).error
  {
    var has := HasRepositoriesKey(data);
    if has.None? {
      return Failure(TypeError);
    }
    if !has.value {
      return Failure(NoRepositories);
    }
    if !data.Dict? {
      return Failure(TypeError);
    }
    var listed := Iterated(Lookup(data.entries, RepositoriesKey).value);
    if listed.Failure? {
      return Failure(listed.error);
    }
    var items := listed.value;
    var manager := new Core.RepositoryManager();
    var i := 0;
    while i < |items|
      invariant 0 <= i <= |items|
      invariant fresh(manager)
      invariant LoadEntries(items[..i]) == Success(manager.repositories)
    {
      var entry := LoadEntry(items[i]);
      ghost var prev := manager.repositories;
      LoadEntriesNext(items, i, prev);
      if entry.Failure? {
        LoadEntriesFailurePersists(items, i + 1);
        return Failure(entry.error);
      }
      match entry.value {
        case None =>
          assert LoadEntries(items[..i + 1]) == Success(prev);
        case Some(rep) =>
          manager.AddRepository(rep);
          assert LoadEntries(items[..i + 1]) == Success(prev + [rep]);
      }
      i := i + 1;
    }
    assert items[..i] == items;
    return Success(manager);
  }

  /** Loading one more entry extends, keeps or fails what the prefix loaded. */
  lemma LoadEntriesNext(items: seq<Value>, i: nat, prev: seq<Core.Repository>)
    requires i < |items| && LoadEntries(items[..i]) == Success(prev)
    ensures LoadEntries(items[..i + 1]) ==
      match LoadEntry(items[i])
      case Failure(e) => Failure(e)
      case Success(None) => Success(prev)
      case Success(Some(rep)) => Success(prev + [rep])
  {
    var prefix := items[..i + 1];
    assert prefix[..|prefix| - 1] == items[..i] && prefix[|prefix| - 1] == items[i];
  }

  /** Once a prefix of the list fails, the whole list fails with the same error. */
  lemma {:induction false} LoadEntriesFailurePersists(items: seq<Value>, k: nat)
    requires k <= |items| && LoadEntries(items[..k]).Failure?
    ensures LoadEntries(items) == LoadEntries(items[..k])
    decreases |items| - k
  {
    if k < |items| {
      assert items[..k + 1][..k] == items[..k];
      LoadEntriesFailurePersists(items, k + 1);
    } else {
      assert items[..k] == items;
    }
  }

  /** A document without the "repositories" key is refused. */
  lemma MissingKeyRefused(es: Entries)
    requires RepositoriesKey !in Keys(es)
    ensures Load(Dict(es)) == Failure(NoRepositories)
  {
  }

  /** An empty list of repositories gives an empty manager. */
  lemma EmptyListLoadsNothing(es: Entries)
    requires Lookup(es, RepositoriesKey) == Some(List([]))
    ensures Load(Dict(es)) == Success([])
  {
  }

  /**
   * An entry lacking "name" or "path", or holding a textual path but no "language", is
   * skipped and loading goes on.
   */
  lemma IncompleteEntrySkipped(items: seq<Value>, entry: Entries)
    requires || Lookup(entry, "name").None?
             || Lookup(entry, "path").None?
             || (Lookup(entry, "path").value.Str? && Lookup(entry, "language").None?)
    ensures LoadEntries(items + [Dict(entry)]) == LoadEntries(items)
  {
    assert (items + [Dict(entry)])[..|items|] == items;
  }

  /** Loading one more entry: it is appended, skipped, or ends the load with its error. */
  lemma LoadEntriesSnoc(items: seq<Value>, v: Value)
    ensures LoadEntries(items + [v]) ==
      match LoadEntries(items)
      case Failure(e) => Failure(e)
      case Success(prev) =>
        match LoadEntry(v)
        case Failure(e) => Failure(e)
        case Success(None) => Success(prev)
        case Success(Some(rep)) => Success(prev + [rep])
  {
    assert (items + [v])[..|items|] == items;
  }

  /** An entry with name, path and language as text is appended, with the defaults for what it lacks. */
  lemma CompleteEntryAppended(items: seq<Value>, name: string, path: string, language: string)
    requires LoadEntries(items).Success?
    ensures var entry := Dict([("name", Str(name)), ("path", Str(path)), ("language", Str(language))]);
      LoadEntries(items + [entry]) ==
        Success(LoadEntries(items).value + [Core.Repository(name, path, "main", language, None)])
  {
    var es := [("name", Str(name)), ("path", Str(path)), ("language", Str(language))];
    MinimalEntry(es, name, path, language);
    LoadEntriesSnoc(items, Dict(es));
  }

  lemma MinimalEntry(es: Entries, name: string, path: string, language: string)
    requires es == [("name", Str(name)), ("path", Str(path)), ("language", Str(language))]
    ensures LoadEntry(Dict(es)) == Success(Some(Core.Repository(name, path, "main", language, None)))
  {
    assert es[1..][1..] == es[2..];
    assert Lookup(es, "name") == Some(Str(name));
    assert Lookup(es[1..], "path") == Some(Str(path));
    assert Lookup(es, "path") == Some(Str(path));
    assert Lookup(es[2..], "language") == Some(Str(language));
    assert Lookup(es[1..], "language") == Some(Str(language));
    assert Lookup(es, "language") == Some(Str(language));
    assert Lookup(es[2..], "main_branch") == None;
    assert Lookup(es[1..], "main_branch") == None;
    assert Lookup(es, "main_branch") == None;
    assert Lookup(es[2..], "remote_url") == None;
    assert Lookup(es[1..], "remote_url") == None;
    assert Lookup(es, "remote_url") == None;
  }

  // ---------------------------------------------------------------- the sample

  /** The first sample entry: a Python repository on branch "main". */
  const SampleRepo1: Entries := [("name", Str("repo1")), ("path", Str("/path/to/repo1")), ("main_branch", Str("main")),
                                  ("language", Str("python")), ("remote_url", Str("https://github.com/username/repo1.git"))]

  /** The second sample entry: a JavaScript repository on branch "master". */
  const SampleRepo2: Entries := [("name", Str("repo2")), ("path", Str("/path/to/repo2")), ("main_branch", Str("master")),
                                  ("language", Str("javascript")), ("remote_url", Str("https://github.com/username/repo2.git"))]

  /** `get_sample_config`: two complete entries. */
  function SampleConfig(): Value {
    Dict([(RepositoriesKey, List([Dict(SampleRepo1), Dict(SampleRepo2)]))])
  }

  /** The sample carries every key the loader reads, so loading it keeps both entries as written. */
  lemma SampleLoads()
    ensures Load(SampleConfig()) == Success([
      Core.Repository("repo1", "/path/to/repo1", "main", "python", Some("https://github.com/username/repo1.git")),
      Core.Repository("repo2", "/path/to/repo2", "master", "javascript", Some("https://github.com/username/repo2.git"))])
  {
    SampleEntry(SampleRepo1, "repo1", "/path/to/repo1", "main", "python", "https://github.com/username/repo1.git");
    SampleEntry(SampleRepo2, "repo2", "/path/to/repo2", "master", "javascript", "https://github.com/username/repo2.git");
    LoadOfList([Dict(SampleRepo1), Dict(SampleRepo2)]);
    LoadTwo(Dict(SampleRepo1), Dict(SampleRepo2),
      Core.Repository("repo1", "/path/to/repo1", "main", "python", Some("https://github.com/username/repo1.git")),
      Core.Repository("repo2", "/path/to/repo2", "master", "javascript", Some("https://github.com/username/repo2.git")));
  }

  /** Two entries that each yield a repository load as both repositories, in order. */
  lemma LoadTwo(e1: Value, e2: Value, r1: Core.Repository, r2: Core.Repository)
    requires LoadEntry(e1) == Success(Some(r1)) && LoadEntry(e2) == Success(Some(r2))
    ensures LoadEntries([e1, e2]) == Success([r1, r2])
  {
    var one := [e1];
    assert one[..0] == [];
    assert LoadEntries(one[..0]) == Success([]);
    assert [] + [r1] == [r1];
    assert LoadEntries(one) == Success([r1]);
    var two := [e1, e2];
    assert two[..1] == one;
    assert [r1] + [r2] == [r1, r2];
  }

  /** A document whose only key is "repositories", bound to a list, loads that list's entries. */
  lemma LoadOfList(items: seq<Value>)
    ensures Load(Dict([(RepositoriesKey, List(items))])) == LoadEntries(items)
  {
    var es := [(RepositoriesKey, List(items))];
    assert Keys(es) == [RepositoriesKey];
    assert Lookup(es, RepositoriesKey) == Some(List(items));
  }

  /** An entry holding text under all five keys yields the repository made of that text. */
  lemma BuildFromText(name: string, path: string, branch: string, language: string, url: string)
    ensures BuildEntry(Some(Str(name)), Some(Str(path)), Some(Str(branch)), Some(Str(language)), Some(Str(url)))
      == Success(Some(Core.Repository(name, path, branch, language, Some(url))))
  {
  }

  lemma SampleEntry(es: Entries, name: string, path: string, branch: string, language: string, url: string)
    requires es == [("name", Str(name)), ("path", Str(path)), ("main_branch", Str(branch)),
                    ("language", Str(language)), ("remote_url", Str(url))]
    ensures LoadEntry(Dict(es)) == Success(Some(Core.Repository(name, path, branch, language, Some(url))))
  {
    var e4: Entries := [("remote_url", Str(url))];
    var e3 := [("language", Str(language))] + e4;
    var e2 := [("main_branch", Str(branch))] + e3;
    var e1 := [("path", Str(path))] + e2;
    assert es == [("name", Str(name))] + e1;
    // The five keys already differ in their first letter.
    assert "name"[0] == 'n' && "path"[0] == 'p' && "main_branch"[0] == 'm';
    assert "language"[0] == 'l' && "remote_url"[0] == 'r';
    var n, p, b, l, u := es[0], e1[0], e2[0], e3[0], e4[0];
    assert e1 == [p] + e2 && e2 == [b] + e3 && e3 == [l] + e4 && e4 == [u] + [];
    LookupCons(n, e1, "name");
    LookupCons(n, e1, "path");
    LookupCons(p, e2, "path");
    LookupCons(n, e1, "main_branch");
    LookupCons(p, e2, "main_branch");
    LookupCons(b, e3, "main_branch");
    LookupCons(n, e1, "language");
    LookupCons(p, e2, "language");
    LookupCons(b, e3, "language");
    LookupCons(l, e4, "language");
    LookupCons(n, e1, "remote_url");
    LookupCons(p, e2, "remote_url");
    LookupCons(b, e3, "remote_url");
    LookupCons(l, e4, "remote_url");
    LookupCons(u, [], "remote_url");
    BuildFromText(name, path, branch, language, url);
  }
}
