/**
 * The grouped collection as the mutable object the program uses: a record map and a
 * group-list map updated in place, with the decode and encode loops over them. Each
 * method is specified by the value-level operation of `Models` or `Codec` it performs.
 */
module RepositoryConfigs {
  import opened Wrappers
  import opened Document
  import opened Models
  import opened Codec

  class RepositoryConfig {
    var repositories: map<string, Repository>
    /** The insertion order of `repositories`' keys. */
    var order: seq<string>
    var groups: map<string, seq<string>>
    /** The insertion order of `groups`' keys. */
    var groupOrder: seq<string>

    /** The collection this object holds. */
    function Value(): Config
      reads this
    {
      Config(repositories, order, groups, groupOrder)
    }

    ghost predicate Valid()
      reads this
    {
      Models.Valid(Value())
    }

    /** A new collection: no records and an empty "default" group. */
    constructor()
      ensures Value() == EmptyConfig
      ensures Valid()
    {
      repositories := map[];
      order := [];
      groups := map[DefaultGroup := []];
      groupOrder := [DefaultGroup];
      new;
      EmptyConfigValid();
    }

    /** `add_repository`: store the record, create its group if needed, list its name there once. */
    method AddRepository(r: Repository)
      modifies this
      ensures Value() == Add(old(Value()), r)
      ensures old(Valid()) ==> Valid()
    {
      ghost var c := Value();
      ghost var c' := Add(c, r);
      if r.name !in repositories {
        order := order + [r.name];
      }
      assert order == c'.order;
      repositories := repositories[r.name := r];
      ghost var list := if r.group in c.groups then c.groups[r.group] else [];
      if r.group !in groups {
        groups := groups[r.group := []];
        groupOrder := groupOrder + [r.group];
      }
      assert groupOrder == c'.groupOrder;
      assert groups == c.groups[r.group := list];
      if r.name !in groups[r.group] {
        groups := groups[r.group := groups[r.group] + [r.name]];
        assert groups == c.groups[r.group := list + [r.name]];
      }
      assert groups == c'.groups;
      assert Value() == c';
      if Models.Valid(c) {
        AddValid(c, r);
      }
    }

    /** `remove_repository`: an unknown name is ignored; otherwise the record goes and its name
        leaves the list of the record's current group. */
    method RemoveRepository(name: string)
      modifies this
      ensures Value() == Remove(old(Value()), name)
      ensures old(Valid()) ==> Valid()
    {
      ghost var c := Value();
      if name !in repositories {
        return;
      }
      ghost var c' := Remove(c, name);
      var g := repositories[name].group;
      if g in groups && name in groups[g] {
        groups := groups[g := RemoveFirst(groups[g], name)];
      }
      assert groups == c'.groups;
      repositories := repositories - {name};
      order := RemoveFirst(order, name);
      assert repositories == c'.repositories && order == c'.order && groupOrder == c'.groupOrder;
      if Models.Valid(c) {
        RemoveValid(c, name);
      }
    }

    /** `from_dict`: a new collection filled entry by entry; the first record that cannot be
        decoded stops the reading with its error. */
    static method FromDict(data: Entries) returns (r: Result<RepositoryConfig, DecodeError>)
      ensures r.Success? <==> Decode(data).Success?
      ensures r.Success? ==> fresh(r.value) && r.value.Value() == Decode(data).value && r.value.Valid()
      ensures r.Failure? ==> r.error == Decode(data).error
    {
      var config := new RepositoryConfig();
      var i := 0;
      while i < |data|
        invariant 0 <= i <= |data|
        invariant fresh(config)
        invariant DecodeEntries(EmptyConfig, data[..i]) == Success(config.Value())
        invariant config.Valid()
      {
        var (key, value) := data[i];
        assert data[..i + 1] == data[..i] + [(key, value)];
        DecodeEntriesSnoc(EmptyConfig, data[..i], key, value);
        var err := config.ReadEntry(key, value);
        if err.Some? {
          assert data == data[..i + 1] + data[i + 1..];
          DecodeEntriesAppend(EmptyConfig, data[..i + 1], data[i + 1..]);
          return Failure(err.value);
        }
        i := i + 1;
      }
      assert data[..i] == data;
      return Success(config);
    }

    /** One pass of the outer loop of `from_dict`: a group block, a "default" record, or ignored. */
    method ReadEntry(key: string, value: Value) returns (err: Option<DecodeError>)
      requires Valid()
      modifies this
      ensures Valid()
      ensures err.None? ==> DecodeEntry(old(Value()), key, value) == Success(Value())
      ensures err.Some? ==> DecodeEntry(old(Value()), key, value) == Failure(err.value)
    {
      if value.Dict? && AllDicts(value.entries) {
        err := ReadGroup(key, value.entries);
      } else if value.Dict? {
        var rep := RepositoryFromDict(key, value.entries, DefaultGroup);
        if rep.Failure? {
          return Some(rep.error);
        }
        AddRepository(rep.value);
        err := None;
      } else {
        err := None;
      }
    }

    /** The inner loop of `from_dict` over a group block: decode and add each record in turn. */
    method ReadGroup(group: string, es: Entries) returns (err: Option<DecodeError>)
      requires Valid() && AllDicts(es)
      modifies this
      ensures Valid()
      ensures err.None? ==> DecodeRecords(old(Value()), group, es) == Success(Value())
      ensures err.Some? ==> DecodeRecords(old(Value()), group, es) == Failure(err.value)
    {
      ghost var start := Value();
      var j := 0;
      while j < |es|
        invariant 0 <= j <= |es|
        invariant DecodeRecords(start, group, es[..j]) == Success(Value())
        invariant Valid()
      {
        var rep := RepositoryFromDict(es[j].0, es[j].1.entries, group);
        if rep.Failure? {
          DecodeRecordsStop(start, group, es, j, Value(), rep.error);
          return Some(rep.error);
        }
        DecodeRecordsNext(start, group, es, j, Value(), rep.value);
        AddRepository(rep.value);
        j := j + 1;
      }
      assert es[..j] == es;
      return None;
    }

    /** `to_dict`: the groups in insertion order; empty lists skipped, "default" records at the
        top level, other groups' records nested under the group name when there are any. */
    method ToDict() returns (result: Entries)
      ensures result == Encode(Value())
    {
      result := [];
      var i := 0;
      while i < |groupOrder|
        invariant 0 <= i <= |groupOrder|
        invariant result == EncodeGroups(Value(), groupOrder[..i])
      {
        var g := groupOrder[i];
        assert groupOrder[..i + 1][..i] == groupOrder[..i];
        var names := if g in groups then groups[g] else [];
        if names != [] {
          if g == DefaultGroup {
            result := WriteRecords(names, result);
          } else {
            var data := WriteRecords(names, []);
            if data != [] {
              result := Put(result, g, Dict(data));
            }
          }
        }
        i := i + 1;
      }
      assert groupOrder[..i] == groupOrder;
    }

    /** The inner loop of `to_dict`: bind each listed name that has a record to its fields. */
    method WriteRecords(names: seq<string>, acc: Entries) returns (result: Entries)
      ensures result == PutRecords(repositories, names, acc)
    {
      result := acc;
      var j := 0;
      while j < |names|
        invariant 0 <= j <= |names|
        invariant result == PutRecords(repositories, names[..j], acc)
      {
        var n := names[j];
        assert names[..j + 1][..j] == names[..j];
        if n in repositories {
          result := Put(result, n, Dict(RepositoryToDict(repositories[n])));
        }
        j := j + 1;
      }
      assert names[..j] == names;
    }
  }

  /** Writing a collection and reading it back gives a new object holding the same records. */
  method RoundTripObject(config: RepositoryConfig) returns (copy: Result<RepositoryConfig, DecodeError>)
    requires config.Valid() && Consistent(config.Value()) && NoNameClash(config.Value())
    ensures copy.Success? && copy.value.repositories == config.repositories
  {
    var data := config.ToDict();
    RoundTrip(config.Value());
    copy := RepositoryConfig.FromDict(data);
  }
}
