/**
 * The flat repository list of the prototype design: a repository record, a manager that
 * only ever appends, and the language filter over its list.
 */
module Core {
  import opened Wrappers

  /** A repository of the prototype design; the path is kept as a string. */
  datatype Repository = Repository(
    name: string,
    path: string,
    mainBranch: string,
    language: string,
    remoteUrl: Option<string>)

  /** `str(repo)`: the name followed by the path in parentheses. */
  function ToString(r: Repository): (s: string)
    ensures |s| == |r.name| + |r.path| + 3
    ensures s[..|r.name|] == r.name
    ensures s[|r.name|..|r.name| + 2] == " (" && s[|s| - 1] == ')'
    ensures s[|r.name| + 2..|s| - 1] == r.path
  {
    r.name + " (" + r.path + ")"
  }

  /** The repositories of `rs` whose language is exactly `language`, in list order. */
  function Filter(rs: seq<Repository>, language: string): (out: seq<Repository>)
    ensures |out| <= |rs|
    ensures forall i :: 0 <= i < |out| ==> out[i].language == language && out[i] in rs
  {
    if rs == [] then []
    else
      var prev := Filter(rs[..|rs| - 1], language);
      var last := rs[|rs| - 1];
      assert forall x :: x in rs[..|rs| - 1] ==> x in rs;
      if last.language == language then prev + [last] else prev
  }

  /** `filter_repositories`: no language gives the whole list, otherwise the exact (case-sensitive) matches. */
  function FilterRepositories(repositories: seq<Repository>, language: Option<string>): (out: seq<Repository>)
    ensures language.None? ==> out == repositories
    ensures language.Some? ==> forall i :: 0 <= i < |out| ==> out[i].language == language.value
  {
    if language.None? then repositories else Filter(repositories, language.value)
  }

  /** Filtering a concatenation filters each part: the filter keeps the list's order. */
  lemma {:induction false} FilterAppend(a: seq<Repository>, b: seq<Repository>, language: string)
    ensures Filter(a + b, language) == Filter(a, language) + Filter(b, language)
    decreases |b|
  {
    if b == [] {
      assert a + b == a;
    } else {
      var b' := b[..|b| - 1];
      var last := b[|b| - 1];
      assert (a + b)[..|a + b| - 1] == a + b';
      assert (a + b)[|a + b| - 1] == last;
      FilterAppend(a, b', language);
      if last.language == language {
        assert (Filter(a, language) + Filter(b', language)) + [last] == Filter(a, language) + (Filter(b', language) + [last]);
      }
    }
  }

  /** The filter keeps every matching occurrence and drops every other one. */
  lemma {:induction false} FilterCounts(rs: seq<Repository>, language: string, x: Repository)
    ensures multiset(Filter(rs, language))[x] == if x.language == language then multiset(rs)[x] else 0
  {
    if rs != [] {
      var init := rs[..|rs| - 1];
      var last := rs[|rs| - 1];
      FilterCounts(init, language, x);
      assert rs == init + [last];
      assert multiset(rs) == multiset(init) + multiset{last};
    }
  }

  /** A list whose entries all match passes the filter unchanged. */
  lemma {:induction false} FilterAllMatch(rs: seq<Repository>, language: string)
    requires forall i :: 0 <= i < |rs| ==> rs[i].language == language
    ensures Filter(rs, language) == rs
  {
    if rs != [] {
      FilterAllMatch(rs[..|rs| - 1], language);
      assert rs == rs[..|rs| - 1] + [rs[|rs| - 1]];
    }
  }

  /** The managed list of repositories; it only grows, at its end. */
  class RepositoryManager {
    var repositories: seq<Repository>

    /** A new manager holds no repositories. */
    constructor()
      ensures repositories == []
    {
      repositories := [];
    }

    /** `add_repository`: append at the end; duplicates are kept. */
    method AddRepository(r: Repository)
      modifies this
      ensures repositories == old(repositories) + [r]
    {
      repositories := repositories + [r];
    }

    /** `get_repositories`: the list, in insertion order. */
    function GetRepositories(): seq<Repository>
      reads this
    {
      repositories
    }
  }
}
