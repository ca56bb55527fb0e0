/**
 * The grouped repository collection: the server-type enumeration, the repository record
 * and the collection value with its add, remove and lookup operations.
 *
 * A Python dictionary is a map plus the insertion order of its keys, so a collection is
 * modelled by `repositories` with `order` (its key order) and `groups` with `groupOrder`.
 */
module Models {
  import opened Wrappers
  import opened Text
  import opened Errors
  import opened Document

  // ---------------------------------------------------------------- server types

  datatype ServerType = GitHub | AzureDevOps | GitLab

  /** The enumeration value of each member. */
  function ServerValue(t: ServerType): string {
    match t
    case GitHub => "github"
    case AzureDevOps => "azure-devops"
    case GitLab => "gitlab"
  }

  /** Every value of the enumeration, in declaration order. */
  const ServerValues: seq<string> := ["github", "azure-devops", "gitlab"]

  /** Case-insensitive parse; an unknown value raises an error naming it and every supported value. */
  function ServerFromString(value: string): (r: Result<ServerType, Error>)
    ensures r.Success? <==> Lower(value) in ServerValues
    ensures r.Success? ==> ServerValue(r.value) == Lower(value)
    ensures r.Failure? ==> r.error == InvalidServerType(value, ServerValues)
  {
    var v := Lower(value);
    if v == "github" then Success(GitHub)
    else if v == "azure-devops" then Success(AzureDevOps)
    else if v == "gitlab" then Success(GitLab)
    else Failure(InvalidServerType(value, ServerValues))
  }

  /** The supported list is the enumeration's values in declaration order. */
  lemma ServerValuesInDeclarationOrder()
    ensures ServerValues == [ServerValue(GitHub), ServerValue(AzureDevOps), ServerValue(GitLab)]
    ensures forall t: ServerType :: ServerValue(t) in ServerValues
  {
  }

  /** Parsing a member's own value gives that member back. */
  lemma ServerValueRoundTrip(t: ServerType)
    ensures ServerFromString(ServerValue(t)) == Success(t)
  {
    var v := ServerValue(t);
    assert forall i :: 0 <= i < |v| ==> !IsUpper(v[i]);
    LowerOfLower(v);
    ParseLowered(v, t);
  }

  /** A value whose lower-case form is a member's value parses to that member. */
  lemma ParseLowered(value: string, t: ServerType)
    requires Lower(value) == ServerValue(t)
    ensures ServerFromString(value) == Success(t)
  {
    var v := ServerValue(t);
    assert |v| == 6 ==> v[3] != "github"[3] || v == "github";
    assert |"github"| == 6 && |"azure-devops"| == 12;
  }

  /** Two spellings that differ only in letter case parse to the same result. */
  lemma ServerFromStringIgnoresCase(a: string, b: string)
    requires Lower(a) == Lower(b)
    ensures ServerFromString(a).Success? == ServerFromString(b).Success?
    ensures ServerFromString(a).Success? ==> ServerFromString(a) == ServerFromString(b)
  {
  }

  // ---------------------------------------------------------------- repository record

  const DefaultGroup: string := "default"

  /** A repository record; the local path is kept as a string. */
  datatype Repository = Repository(
    name: string,
    url: string,
    serverType: ServerType,
    localPath: string,
    defaultBranch: string,
    group: string)

  /** The server type given to the record constructor: already parsed, or text to parse. */
  datatype ServerArg = Parsed(t: ServerType) | Text(s: string)

  /** The record constructor with its post-initialisation coercion of a textual server type. */
  function NewRepository(name: string, url: string, server: ServerArg, localPath: string,
                         defaultBranch: string, group: string): (r: Result<Repository, Error>)
    ensures server.Parsed? ==> r == Success(Repository(name, url, server.t, localPath, defaultBranch, group))
    ensures server.Text? ==> (r.Success? <==> Lower(server.s) in ServerValues)
    ensures server.Text? && r.Success? ==>
      r.value == Repository(name, url, ServerFromString(server.s).value, localPath, defaultBranch, group)
    ensures server.Text? && r.Failure? ==> r.error == InvalidServerType(server.s, ServerValues)
  {
    match server
    case Parsed(t) => Success(Repository(name, url, t, localPath, defaultBranch, group))
    case Text(s) =>
      match ServerFromString(s)
      case Failure(e) => Failure(e)
      case Success(t) => Success(Repository(name, url, t, localPath, defaultBranch, group))
  }

  /** Why a record could not be decoded: an error of the taxonomy, or a field whose value is not text. */
  datatype DecodeError = Raised(error: Error) | NotAString(field: string)

  /** The fields a record must have, in the order they are checked. */
  const RequiredFields: seq<string> := ["url", "server", "path", "defaultBranch"]

  /** The first of `fields` that the mapping lacks. */
  function FirstMissing(fields: seq<string>, data: Entries): (r: Option<string>)
    ensures r.None? <==> forall i :: 0 <= i < |fields| ==> fields[i] in Keys(data)
  {
    if fields == [] then None
    else if fields[0] !in Keys(data) then Some(fields[0])
    else FirstMissing(fields[1..], data)
  }

  /** The field reported missing is one of `fields` that the mapping lacks, and every field before it is present. */
  lemma {:induction false} FirstMissingIsFirst(fields: seq<string>, data: Entries)
    requires FirstMissing(fields, data).Some?
    ensures var m := FirstMissing(fields, data).value;
      exists k :: 0 <= k < |fields| && fields[k] == m && m !in Keys(data) && forall i :: 0 <= i < k ==> fields[i] in Keys(data)
  {
    if fields[0] in Keys(data) {
      FirstMissingIsFirst(fields[1..], data);
      var m := FirstMissing(fields, data).value;
      var k :| 0 <= k < |fields[1..]| && fields[1..][k] == m && m !in Keys(data)
                && forall i :: 0 <= i < k ==> fields[1..][i] in Keys(data);
      assert fields[k + 1] == m;
      assert forall i :: 0 <= i < k + 1 ==> fields[i] in Keys(data) by {
        forall i | 0 <= i < k + 1 ensures fields[i] in Keys(data) {
          if i > 0 { assert fields[i] == fields[1..][i - 1]; }
        }
      }
    } else {
      assert fields[0] == FirstMissing(fields, data).value;
    }
  }

  /** The context a missing-field error names. */
  function RecordContext(name: string, group: string): string {
    "repository '" + name + "' in group '" + group + "'"
  }

  /** Builds the record `name` of `group` from its field mapping. */
  function RepositoryFromDict(name: string, data: Entries, group: string): Result<Repository, DecodeError>
  {
    match FirstMissing(RequiredFields, data)
    case Some(field) => Failure(Raised(MissingRequiredField(field, RecordContext(name, group))))
    case None =>
      assert RequiredFields[0] in Keys(data) && RequiredFields[1] in Keys(data);
      assert RequiredFields[2] in Keys(data) && RequiredFields[3] in Keys(data);
      var url := Lookup(data, "url").value;
      var server := Lookup(data, "server").value;
      var path := Lookup(data, "path").value;
      var branch := Lookup(data, "defaultBranch").value;
      if !url.Str? then Failure(NotAString("url"))
      else if !server.Str? then Failure(NotAString("server"))
      else
        match ServerFromString(server.s)
        case Failure(e) => Failure(Raised(e))
        case Success(t) =>
          if !path.Str? then Failure(NotAString("path"))
          else if !branch.Str? then Failure(NotAString("defaultBranch"))
          else Success(Repository(name, url.s, t, path.s, branch.s, group))
  }

  /** A record lacking a required field is refused with an error naming the first absent field and the record. */
  lemma RecordDecodeMissing(name: string, data: Entries, group: string)
    requires FirstMissing(RequiredFields, data).Some?
    ensures RepositoryFromDict(name, data, group) ==
      Failure(Raised(MissingRequiredField(FirstMissing(RequiredFields, data).value, RecordContext(name, group))))
  {
  }

  /** A record that is built carries the given name and group and the string values of its four fields. */
  lemma RecordDecodeFields(name: string, data: Entries, group: string)
    requires RepositoryFromDict(name, data, group).Success?
    ensures var r := RepositoryFromDict(name, data, group).value;
      && r.name == name && r.group == group
      && Lookup(data, "url") == Some(Str(r.url))
      && Lookup(data, "server").Some? && Lookup(data, "server").value.Str?
      && ServerFromString(Lookup(data, "server").value.s) == Success(r.serverType)
      && Lookup(data, "path") == Some(Str(r.localPath))
      && Lookup(data, "defaultBranch") == Some(Str(r.defaultBranch))
  {
    assert FirstMissing(RequiredFields, data).None?;
    assert RequiredFields[0] in Keys(data) && RequiredFields[1] in Keys(data);
    assert RequiredFields[2] in Keys(data) && RequiredFields[3] in Keys(data);
    var server := Lookup(data, "server").value;
    assert server.Str?;
    assert ServerFromString(server.s).Success?;
  }

  /** The record's field mapping: exactly the four required fields, in order. */
  function RepositoryToDict(r: Repository): (data: Entries)
    ensures Keys(data) == RequiredFields
  {
    [("url", Str(r.url)), ("server", Str(ServerValue(r.serverType))),
     ("path", Str(r.localPath)), ("defaultBranch", Str(r.defaultBranch))]
  }

  /** Decoding a record's own field mapping, under its own name and group, gives it back. */
  lemma RepositoryRoundTrip(r: Repository)
    ensures RepositoryFromDict(r.name, RepositoryToDict(r), r.group) == Success(r)
  {
    var data := RepositoryToDict(r);
    ToDictLookups(r);
    assert FirstMissing(RequiredFields, data).None?;
    ServerValueRoundTrip(r.serverType);
  }

  lemma ToDictLookups(r: Repository)
    ensures Lookup(RepositoryToDict(r), "url") == Some(Str(r.url))
    ensures Lookup(RepositoryToDict(r), "server") == Some(Str(ServerValue(r.serverType)))
    ensures Lookup(RepositoryToDict(r), "path") == Some(Str(r.localPath))
    ensures Lookup(RepositoryToDict(r), "defaultBranch") == Some(Str(r.defaultBranch))
  {
    var data := RepositoryToDict(r);
    assert data[1..][1..] == data[2..];
    assert data[2..][1..] == data[3..];
    assert Lookup(data[3..], "defaultBranch") == Some(Str(r.defaultBranch));
    assert Lookup(data[2..], "path") == Some(Str(r.localPath));
    assert Lookup(data[2..], "defaultBranch") == Some(Str(r.defaultBranch));
  }

  // ---------------------------------------------------------------- the collection

  /** The collection: records by name and member-name lists by group, each with its key order. */
  datatype Config = Config(
    repositories: map<string, Repository>,
    order: seq<string>,
    groups: map<string, seq<string>>,
    groupOrder: seq<string>)

  /** A new collection: no records and an empty "default" group. */
  const EmptyConfig: Config := Config(map[], [], map[DefaultGroup := []], [DefaultGroup])

  predicate NoDup<T(==)>(s: seq<T>) {
    forall i, j :: 0 <= i < j < |s| ==> s[i] != s[j]
  }

  /**
   * The invariant the constructor, add and remove keep: the "default" group exists (and is
   * the first group), no group list names anyone twice, and every stored record is filed
   * under its own name and listed in its own group. A list may still hold a name that has
   * no record, or that has moved to another group.
   */
  ghost predicate Valid(c: Config) {
    && DefaultGroup in c.groups
    && |c.groupOrder| > 0 && c.groupOrder[0] == DefaultGroup
    && NoDup(c.groupOrder) && (forall g :: g in c.groups <==> g in c.groupOrder)
    && NoDup(c.order) && (forall n :: n in c.repositories <==> n in c.order)
    && (forall g :: g in c.groups ==> NoDup(c.groups[g]))
    && (forall n :: n in c.repositories ==>
          && c.repositories[n].name == n
          && c.repositories[n].group in c.groups
          && n in c.groups[c.repositories[n].group])
  }

  /** Every listed name has a record: what the design intends, and what re-adding breaks. */
  ghost predicate ReferentiallyIntact(c: Config) {
    forall g, n :: g in c.groups && n in c.groups[g] ==> n in c.repositories
  }

  lemma EmptyConfigValid()
    ensures Valid(EmptyConfig) && ReferentiallyIntact(EmptyConfig)
  {
  }

  /**
   * Python's `list.remove`: drops the first occurrence of `x`. Python raises `ValueError` when
   * `x` is absent; the one caller checks membership first, so that case is never reached, and
   * the model returns the list unchanged there.
   */
  function RemoveFirst(s: seq<string>, x: string): (r: seq<string>)
    ensures x !in s ==> r == s
    ensures x in s ==> |r| == |s| - 1
  {
    if s == [] then []
    else if s[0] == x then s[1..]
    else [s[0]] + RemoveFirst(s[1..], x)
  }

  /**
   * The remaining names keep their relative order: removing the first occurrence at index `i`
   * leaves the names before it followed by the names after it.
   */
  lemma {:induction false} RemoveFirstAt(s: seq<string>, x: string, i: nat)
    requires i < |s| && s[i] == x && x !in s[..i]
    ensures RemoveFirst(s, x) == s[..i] + s[i + 1..]
  {
    if i > 0 {
      assert s[0] in s[..i];
      assert s[1..][..i - 1] == s[1..i];
      RemoveFirstAt(s[1..], x, i - 1);
      assert s[..i] == [s[0]] + s[1..i];
    }
  }

  /** Adding a name a group does not list yet appends it at the end of that group's list. */
  lemma AddAppendsName(c: Config, r: Repository)
    ensures var list := if r.group in c.groups then c.groups[r.group] else [];
      r.name !in list ==> Add(c, r).groups[r.group] == list + [r.name]
  {
  }

  /** Exactly one occurrence of `x` goes, when there is one. */
  lemma {:induction false} RemoveFirstMultiset(s: seq<string>, x: string)
    ensures multiset(RemoveFirst(s, x)) == multiset(s) - multiset{x}
  {
    if s != [] {
      assert s == [s[0]] + s[1..];
      if s[0] != x {
        RemoveFirstMultiset(s[1..], x);
      }
    }
  }

  /** On a list without repeats, removing `x` removes it entirely and keeps every other name. */
  lemma RemoveFirstNoDup(s: seq<string>, x: string)
    requires NoDup(s)
    ensures NoDup(RemoveFirst(s, x)) && x !in RemoveFirst(s, x)
    ensures forall y :: y != x ==> (y in RemoveFirst(s, x) <==> y in s)
  {
    var r := RemoveFirst(s, x);
    RemoveFirstMultiset(s, x);
    forall y ensures y in r <==> multiset(r)[y] > 0 {}
    forall y ensures y in s <==> multiset(s)[y] > 0 {}
    if x in s {
      NoDupCountOne(s, x);
    }
    NoDupMultiset(s);
    forall y ensures multiset(r)[y] <= 1 {}
    MultisetNoDup(r);
  }

  /** A list has no repeats exactly when no element occurs twice in its multiset. */
  lemma NoDupMultiset(s: seq<string>)
    requires NoDup(s)
    ensures forall y :: multiset(s)[y] <= 1
  {
    forall y ensures multiset(s)[y] <= 1 {
      if y in s { NoDupCountOne(s, y); }
    }
  }

  lemma MultisetNoDup(s: seq<string>)
    requires forall y :: multiset(s)[y] <= 1
    ensures NoDup(s)
  {
    forall i, j | 0 <= i < j < |s| ensures s[i] != s[j] {
      assert s == s[..j] + s[j..];
      assert multiset(s) == multiset(s[..j]) + multiset(s[j..]);
      assert s[..j][i] == s[i] && s[j..][0] == s[j];
      assert multiset(s[..j])[s[i]] >= 1 && multiset(s[j..])[s[j]] >= 1;
      assert multiset(s)[s[i]] <= 1;
    }
  }

  /** `add_repository`: store the record under its name and list the name in its group once. */
  function Add(c: Config, r: Repository): Config {
    var list := if r.group in c.groups then c.groups[r.group] else [];
    Config(
      c.repositories[r.name := r],
      if r.name in c.repositories then c.order else c.order + [r.name],
      c.groups[r.group := if r.name in list then list else list + [r.name]],
      if r.group in c.groups then c.groupOrder else c.groupOrder + [r.group])
  }

  /** `remove_repository`: a name without a record changes nothing; otherwise the record goes and
      the name leaves the list of the record's current group only. */
  function Remove(c: Config, name: string): Config {
    if name !in c.repositories then c
    else
      var g := c.repositories[name].group;
      Config(
        c.repositories - {name},
        RemoveFirst(c.order, name),
        if g in c.groups && name in c.groups[g] then c.groups[g := RemoveFirst(c.groups[g], name)] else c.groups,
        c.groupOrder)
  }

  /** What adding guarantees: the record is stored, its name is listed exactly once in its group
      (re-adding never duplicates it), and no other record or group list changes. */
  lemma AddSpec(c: Config, r: Repository)
    requires Valid(c)
    ensures var c' := Add(c, r);
      && Valid(c')
      && c'.repositories[r.name] == r
      && r.group in c'.groups && multiset(c'.groups[r.group])[r.name] == 1
      && (r.group in c.groups && r.name in c.groups[r.group] ==> c'.groups[r.group] == c.groups[r.group])
      && (forall n :: n != r.name ==> (n in c'.repositories <==> n in c.repositories))
      && (forall n :: n != r.name && n in c.repositories ==> c'.repositories[n] == c.repositories[n])
      && (forall g :: g != r.group ==> (g in c'.groups <==> g in c.groups))
      && (forall g :: g != r.group && g in c.groups ==> c'.groups[g] == c.groups[g])
  {
    var c' := Add(c, r);
    AddValid(c, r);
    NoDupCountOne(c'.groups[r.group], r.name);
  }

  /** Adding keeps the invariant. */
  lemma AddValid(c: Config, r: Repository)
    requires Valid(c)
    ensures Valid(Add(c, r))
  {
    var c' := Add(c, r);
    var list := if r.group in c.groups then c.groups[r.group] else [];
    var list' := if r.name in list then list else list + [r.name];
    assert c'.groups == c.groups[r.group := list'];
    if r.name !in list {
      NoDupSnoc(list, r.name);
    }
    if r.name in c.repositories {
      assert c'.order == c.order;
    } else {
      NoDupSnoc(c.order, r.name);
      assert c'.order == c.order + [r.name];
    }
    assert forall n :: n in c'.repositories <==> n in c'.order;
    if r.group in c.groups {
      assert c'.groupOrder == c.groupOrder;
    } else {
      NoDupSnoc(c.groupOrder, r.group);
      assert c'.groupOrder == c.groupOrder + [r.group];
      assert c'.groupOrder[0] == c.groupOrder[0];
    }
    assert forall g :: g in c'.groups <==> g in c'.groupOrder;
    forall g | g in c'.groups ensures NoDup(c'.groups[g]) {
      if g != r.group {
        assert c'.groups[g] == c.groups[g];
      }
    }
    forall n | n in c'.repositories
      ensures c'.repositories[n].name == n
      ensures c'.repositories[n].group in c'.groups && n in c'.groups[c'.repositories[n].group]
    {
      if n != r.name {
        var g := c.repositories[n].group;
        assert n in c.groups[g];
      }
    }
    assert DefaultGroup in c'.groups;
  }

  /** Appending a new element keeps a list free of duplicates. */
  lemma NoDupSnoc<T>(s: seq<T>, x: T)
    requires NoDup(s) && x !in s
    ensures NoDup(s + [x])
  {
  }

  lemma NoDupCountOne<T>(s: seq<T>, x: T)
    requires NoDup(s) && x in s
    ensures multiset(s)[x] == 1
  {
    if s[0] == x {
      assert s == [x] + s[1..];
      assert x !in s[1..];
    } else {
      assert s == [s[0]] + s[1..];
      NoDupCountOne(s[1..], x);
    }
  }

  /** What removing guarantees: an unknown name changes nothing; otherwise the record and its
      name in its current group's list are gone and everything else is as it was. */
  lemma RemoveSpec(c: Config, name: string)
    requires Valid(c)
    ensures var c' := Remove(c, name);
      && Valid(c')
      && (name !in c.repositories ==> c' == c)
      && name !in c'.repositories
      && (name in c.repositories ==>
            var g := c.repositories[name].group;
            && name !in c'.groups[g]
            && (forall m :: m != name ==> (m in c'.groups[g] <==> m in c.groups[g])))
      && (forall n :: n != name ==> (n in c'.repositories <==> n in c.repositories))
      && (forall n :: n != name && n in c.repositories ==> c'.repositories[n] == c.repositories[n])
      && c'.groups.Keys == c.groups.Keys
      && (forall g :: g in c.groups && (name !in c.repositories || g != c.repositories[name].group) ==>
            c'.groups[g] == c.groups[g])
  {
    RemoveValid(c, name);
    if name in c.repositories {
      var g := c.repositories[name].group;
      assert name in c.groups[g];
      RemoveFirstNoDup(c.groups[g], name);
    }
  }

  /** Removing keeps the invariant. */
  lemma RemoveValid(c: Config, name: string)
    requires Valid(c)
    ensures Valid(Remove(c, name))
  {
    if name in c.repositories {
      var c' := Remove(c, name);
      var g := c.repositories[name].group;
      assert name in c.groups[g];
      RemoveFirstNoDup(c.order, name);
      RemoveFirstNoDup(c.groups[g], name);
      forall n | n in c'.repositories
        ensures c'.repositories[n].group in c'.groups && n in c'.groups[c'.repositories[n].group]
      {
        var h := c.repositories[n].group;
        assert n in c.groups[h];
      }
    }
  }

  /**
   * Moving a record by re-adding it under another group leaves its name in the old group's
   * list, and removing it afterwards does not clear that stale entry: the invariant `Valid`
   * survives, but not referential integrity.
   */
  lemma StaleNameAfterRegroup(r: Repository)
    requires r.group != DefaultGroup
    ensures var moved := r.(group := DefaultGroup);
      var c1 := Add(Add(EmptyConfig, r), moved);
      var c2 := Remove(c1, r.name);
      && Valid(c1) && Valid(c2)
      && r.name in c1.groups[r.group] && c1.repositories[r.name].group == DefaultGroup
      && r.name in c2.groups[r.group] && r.name !in c2.repositories
      && !ReferentiallyIntact(c2)
  {
    var moved := r.(group := DefaultGroup);
    EmptyConfigValid();
    AddSpec(EmptyConfig, r);
    var c0 := Add(EmptyConfig, r);
    AddSpec(c0, moved);
    var c1 := Add(c0, moved);
    RemoveSpec(c1, r.name);
  }

  // ---------------------------------------------------------------- lookups

  /** The records of the listed names that have one, in list order. */
  function LiveRecords(repositories: map<string, Repository>, names: seq<string>): (rs: seq<Repository>)
    ensures |rs| <= |names|
  {
    if names == [] then []
    else
      var prev := LiveRecords(repositories, names[..|names| - 1]);
      var n := names[|names| - 1];
      if n in repositories then prev + [repositories[n]] else prev
  }

  /** Which records `LiveRecords` yields: those of listed names that have one, and no others. */
  lemma {:induction false} LiveRecordsMembers(repositories: map<string, Repository>, names: seq<string>, x: Repository)
    ensures x in LiveRecords(repositories, names) <==>
      exists n :: n in names && n in repositories && repositories[n] == x
  {
    if names != [] {
      var init := names[..|names| - 1];
      LiveRecordsMembers(repositories, init, x);
      assert names == init + [names[|names| - 1]];
      assert forall n :: n in names <==> n in init || n == names[|names| - 1];
    }
  }

  /**
   * The lookup keeps list order: the records of a concatenation of names are those of the
   * first part followed by those of the second.
   */
  lemma {:induction false} LiveRecordsAppend(repositories: map<string, Repository>, a: seq<string>, b: seq<string>)
    ensures LiveRecords(repositories, a + b) == LiveRecords(repositories, a) + LiveRecords(repositories, b)
  {
    if b == [] {
      assert a + b == a;
    } else {
      var init := b[..|b| - 1];
      LiveRecordsAppend(repositories, a, init);
      assert (a + b)[..|a + b| - 1] == a + init;
      assert (a + b)[|a + b| - 1] == b[|b| - 1];
    }
  }

  /** One listed name yields its record when it has one, and nothing otherwise. */
  lemma LiveRecordsSingle(repositories: map<string, Repository>, n: string)
    ensures LiveRecords(repositories, [n]) == if n in repositories then [repositories[n]] else []
  {
    assert [n][..0] == [];
  }

  /** `get_repositories_by_group`: an unknown group has no records, a known one its live members in order. */
  function ByGroup(c: Config, group: string): (rs: seq<Repository>)
    ensures group !in c.groups ==> rs == []
    ensures group in c.groups ==> |rs| <= |c.groups[group]|
  {
    if group !in c.groups then [] else LiveRecords(c.repositories, c.groups[group])
  }

  /** Under the invariant, a group's lookup yields exactly the stored records whose name it lists. */
  lemma ByGroupMembers(c: Config, group: string, x: Repository)
    requires Valid(c) && group in c.groups
    ensures x in ByGroup(c, group) <==>
      x.name in c.groups[group] && x.name in c.repositories && c.repositories[x.name] == x
  {
    LiveRecordsMembers(c.repositories, c.groups[group], x);
  }

  /** A stored record is always found under its own group. */
  lemma RecordFoundInOwnGroup(c: Config, n: string)
    requires Valid(c) && n in c.repositories
    ensures c.repositories[n] in ByGroup(c, c.repositories[n].group)
  {
    ByGroupMembers(c, c.repositories[n].group, c.repositories[n]);
  }

  /** `get_all_repositories`: every record, in insertion order. */
  function AllRepositories(c: Config): (rs: seq<Repository>)
    requires forall i :: 0 <= i < |c.order| ==> c.order[i] in c.repositories
    ensures |rs| == |c.order|
    ensures forall i :: 0 <= i < |rs| ==> rs[i] == c.repositories[c.order[i]]
  {
    seq(|c.order|, i requires 0 <= i < |c.order| => c.repositories[c.order[i]])
  }

  /** Under the invariant the list holds each record exactly once. */
  lemma AllRepositoriesComplete(c: Config)
    requires Valid(c)
    ensures |AllRepositories(c)| == |c.repositories|
    ensures forall n :: n in c.repositories ==> c.repositories[n] in AllRepositories(c)
  {
    var rs := AllRepositories(c);
    NoDupCard(c.order);
    assert (set n | n in c.order) == c.repositories.Keys;
    forall n | n in c.repositories ensures c.repositories[n] in rs {
      var i :| 0 <= i < |c.order| && c.order[i] == n;
      assert rs[i] == c.repositories[n];
    }
  }

  lemma NoDupCard(s: seq<string>)
    requires NoDup(s)
    ensures |set x | x in s| == |s|
  {
    if s != [] {
      var last := s[|s| - 1];
      var init := s[..|s| - 1];
      NoDupCard(init);
      assert (set x | x in s) == (set x | x in init) + {last};
      assert last !in init;
    }
  }
}
