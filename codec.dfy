/**
 * The nested form of the grouped collection: how `to_dict` writes a collection and how
 * `from_dict` reads one back, and the round trip between them.
 *
 * Written form: records of the "default" group sit at the top level as `name: {fields}`;
 * every other group with records sits under its name as `group: {name: {fields}, ...}`.
 * Read back, a top-level mapping whose values are all mappings is a group, any other
 * mapping is a "default" record, and anything that is not a mapping is ignored.
 */
module Codec {
  import opened Wrappers
  import opened Document
  import opened Models

  // ---------------------------------------------------------------- to_dict

  /** The inner loop of `to_dict`: bind each listed name that has a record to that record's fields. */
  function PutRecords(repositories: map<string, Repository>, names: seq<string>, acc: Entries): Entries {
    if names == [] then acc
    else
      var prev := PutRecords(repositories, names[..|names| - 1], acc);
      var n := names[|names| - 1];
      if n in repositories then Put(prev, n, Dict(RepositoryToDict(repositories[n]))) else prev
  }

  /** One pass of the outer loop of `to_dict`, for group `g`: an empty list is skipped, the
      "default" group is written flat, another group nested under its name when it has records. */
  function EncodeGroup(c: Config, g: string, acc: Entries): Entries {
    var names := if g in c.groups then c.groups[g] else [];
    if names == [] then acc
    else if g == DefaultGroup then PutRecords(c.repositories, names, acc)
    else
      var data := PutRecords(c.repositories, names, []);
      if data == [] then acc else Put(acc, g, Dict(data))
  }

  /** The outer loop of `to_dict` over the groups `gs`, in order. */
  function EncodeGroups(c: Config, gs: seq<string>): Entries {
    if gs == [] then [] else EncodeGroup(c, gs[|gs| - 1], EncodeGroups(c, gs[..|gs| - 1]))
  }

  /** `to_dict`: the groups in their insertion order. */
  function Encode(c: Config): Entries {
    EncodeGroups(c, c.groupOrder)
  }

  // ---------------------------------------------------------------- from_dict

  /** The inner loop of `from_dict` over a group block: decode and add each record in turn. */
  function DecodeRecords(c: Config, group: string, es: Entries): Result<Config, DecodeError>
    requires AllDicts(es)
  {
    if es == [] then Success(c)
    else
      match DecodeRecords(c, group, es[..|es| - 1])
      case Failure(e) => Failure(e)
      case Success(c') =>
        match RepositoryFromDict(es[|es| - 1].0, es[|es| - 1].1.entries, group)
        case Failure(e) => Failure(e)
        case Success(r) => Success(Add(c', r))
  }

  /** One pass of the outer loop of `from_dict`: a group block, a "default" record, or ignored. */
  function DecodeEntry(c: Config, key: string, v: Value): Result<Config, DecodeError> {
    if v.Dict? && AllDicts(v.entries) then DecodeRecords(c, key, v.entries)
    else if v.Dict? then
      match RepositoryFromDict(key, v.entries, DefaultGroup)
      case Failure(e) => Failure(e)
      case Success(r) => Success(Add(c, r))
    else Success(c)
  }

  /** The outer loop of `from_dict` over the top-level entries, stopping at the first error. */
  function DecodeEntries(c: Config, es: Entries): Result<Config, DecodeError> {
    if es == [] then Success(c)
    else
      match DecodeEntries(c, es[..|es| - 1])
      case Failure(e) => Failure(e)
      case Success(c') => DecodeEntry(c', es[|es| - 1].0, es[|es| - 1].1)
  }

  /** `from_dict`: start from a new collection and read every top-level entry. */
  function Decode(data: Entries): Result<Config, DecodeError> {
    DecodeEntries(EmptyConfig, data)
  }

  /** Decoding keeps the invariant: whatever it builds satisfies `Valid`. */
  lemma {:induction false} DecodeEntriesValid(c: Config, es: Entries)
    requires Valid(c)
    ensures DecodeEntries(c, es).Success? ==> Valid(DecodeEntries(c, es).value)
  {
    if es != [] {
      DecodeEntriesValid(c, es[..|es| - 1]);
      var prev := DecodeEntries(c, es[..|es| - 1]);
      if prev.Success? {
        var (k, v) := es[|es| - 1];
        if v.Dict? && AllDicts(v.entries) {
          DecodeRecordsValid(prev.value, k, v.entries);
        } else if v.Dict? && RepositoryFromDict(k, v.entries, DefaultGroup).Success? {
          AddSpec(prev.value, RepositoryFromDict(k, v.entries, DefaultGroup).value);
        }
      }
    }
  }

  lemma {:induction false} DecodeRecordsValid(c: Config, group: string, es: Entries)
    requires Valid(c) && AllDicts(es)
    ensures DecodeRecords(c, group, es).Success? ==> Valid(DecodeRecords(c, group, es).value)
  {
    if es != [] {
      DecodeRecordsValid(c, group, es[..|es| - 1]);
      var prev := DecodeRecords(c, group, es[..|es| - 1]);
      var r := RepositoryFromDict(es[|es| - 1].0, es[|es| - 1].1.entries, group);
      if prev.Success? && r.Success? {
        AddSpec(prev.value, r.value);
      }
    }
  }

  /** A top-level value that is not a mapping is skipped. */
  lemma DecodeIgnoresNonMappings(c: Config, es: Entries, key: string, v: Value)
    requires !v.Dict?
    ensures DecodeEntries(c, es + [(key, v)]) == DecodeEntries(c, es)
  {
    assert (es + [(key, v)])[..|es|] == es;
  }

  /** A top-level mapping holding some non-mapping value is read as one "default" record named by its key. */
  lemma DecodeReadsDefaultRecord(c: Config, es: Entries, key: string, fields: Entries)
    requires !AllDicts(fields) && DecodeEntries(c, es).Success?
    ensures DecodeEntries(c, es + [(key, Dict(fields))]) ==
      match RepositoryFromDict(key, fields, DefaultGroup)
      case Failure(e) => Failure(e)
      case Success(r) => Success(Add(DecodeEntries(c, es).value, r))
  {
    assert (es + [(key, Dict(fields))])[..|es|] == es;
  }

  // ---------------------------------------------------------------- the round trip

  /** The listed names that have a record, in list order. */
  function Live(repositories: map<string, Repository>, names: seq<string>): (live: seq<string>)
    ensures |live| <= |names|
    ensures forall n :: n in live <==> n in names && n in repositories
  {
    if names == [] then []
    else
      var prev := Live(repositories, names[..|names| - 1]);
      var n := names[|names| - 1];
      assert names == names[..|names| - 1] + [n];
      if n in repositories then prev + [n] else prev
  }

  lemma {:induction false} LiveNoDup(repositories: map<string, Repository>, names: seq<string>)
    requires NoDup(names)
    ensures NoDup(Live(repositories, names))
  {
    if names != [] {
      var init := names[..|names| - 1];
      assert NoDup(init);
      LiveNoDup(repositories, init);
      assert names[|names| - 1] !in init;
    }
  }

  /** `name: {fields}` for each of `names`, in order. */
  function RecordEntries(repositories: map<string, Repository>, names: seq<string>): (es: Entries)
    requires forall n :: n in names ==> n in repositories
    ensures Keys(es) == names
    ensures AllDicts(es)
  {
    if names == [] then []
    else
      var n := names[|names| - 1];
      RecordEntries(repositories, names[..|names| - 1]) + [(n, Dict(RepositoryToDict(repositories[n])))]
  }

  lemma KeysAppend(a: Entries, b: Entries)
    ensures Keys(a + b) == Keys(a) + Keys(b)
  {
  }

  /** With fresh names, the inner loop of `to_dict` only appends. */
  lemma {:induction false} PutRecordsAppends(repositories: map<string, Repository>, names: seq<string>, acc: Entries)
    requires NoDup(names)
    requires forall n :: n in names ==> n !in Keys(acc)
    ensures PutRecords(repositories, names, acc) == acc + RecordEntries(repositories, Live(repositories, names))
  {
    if names != [] {
      var init := names[..|names| - 1];
      var n := names[|names| - 1];
      assert NoDup(init);
      PutRecordsAppends(repositories, init, acc);
      var liveInit := Live(repositories, init);
      if n in repositories {
        assert n !in init;
        PutRecordsStep(repositories, liveInit, n, acc);
        assert Live(repositories, names) == liveInit + [n];
      } else {
        assert Live(repositories, names) == liveInit;
      }
    }
  }

  lemma PutRecordsStep(repositories: map<string, Repository>, live: seq<string>, n: string, acc: Entries)
    requires forall m :: m in live ==> m in repositories
    requires n in repositories && n !in live && n !in Keys(acc)
    ensures Put(acc + RecordEntries(repositories, live), n, Dict(RepositoryToDict(repositories[n]))) ==
      acc + RecordEntries(repositories, live + [n])
  {
    var v := Dict(RepositoryToDict(repositories[n]));
    var rest := RecordEntries(repositories, live);
    KeysAppend(acc, rest);
    assert n !in Keys(acc + rest);
    assert Put(acc + rest, n, v) == (acc + rest) + [(n, v)];
    RecordEntriesSnoc(repositories, live, n);
    assert (acc + rest) + [(n, v)] == acc + (rest + [(n, v)]);
  }

  lemma RecordEntriesSnoc(repositories: map<string, Repository>, live: seq<string>, n: string)
    requires forall m :: m in live ==> m in repositories
    requires n in repositories
    ensures RecordEntries(repositories, live + [n]) ==
      RecordEntries(repositories, live) + [(n, Dict(RepositoryToDict(repositories[n])))]
  {
    assert (live + [n])[..|live|] == live;
  }

  /** The records of `names` as a map. */
  function MapOf(repositories: map<string, Repository>, names: seq<string>): map<string, Repository>
    requires forall n :: n in names ==> n in repositories
  {
    map n | n in names :: repositories[n]
  }

  /** Reading records back one by one, under the group they were written in, re-adds each of them. */
  lemma {:induction false} DecodeRecordsOfRecordEntries(d: Config, repositories: map<string, Repository>,
                                                          names: seq<string>, group: string)
    requires forall n :: n in names ==> n in repositories
    requires forall n :: n in names ==> repositories[n].name == n && repositories[n].group == group
    ensures DecodeRecords(d, group, RecordEntries(repositories, names)).Success?
    ensures DecodeRecords(d, group, RecordEntries(repositories, names)).value.repositories ==
      d.repositories + MapOf(repositories, names)
  {
    if names != [] {
      var init := names[..|names| - 1];
      var n := names[|names| - 1];
      var r := repositories[n];
      assert names == init + [n];
      assert forall m :: m in init ==> m in names;
      var es := RecordEntries(repositories, init);
      RecordEntriesSnoc(repositories, init, n);
      DecodeRecordsOfRecordEntries(d, repositories, init, group);
      RepositoryRoundTrip(r);
      var prev := DecodeRecords(d, group, es).value;
      DecodeRecordsSnoc(d, group, es, n, RepositoryToDict(r));
      assert DecodeRecords(d, group, RecordEntries(repositories, names)) == Success(Add(prev, r));
      AddRecords(prev, r);
      MapOfSnoc(repositories, d.repositories, init, n);
    }
  }

  lemma DecodeRecordsSnoc(d: Config, group: string, es: Entries, key: string, fields: Entries)
    requires AllDicts(es)
    ensures AllDicts(es + [(key, Dict(fields))])
    ensures DecodeRecords(d, group, es + [(key, Dict(fields))]) ==
      match DecodeRecords(d, group, es)
      case Failure(e) => Failure(e)
      case Success(c') =>
        match RepositoryFromDict(key, fields, group)
        case Failure(e) => Failure(e)
        case Success(r) => Success(Add(c', r))
  {
    assert (es + [(key, Dict(fields))])[..|es|] == es;
  }

  /** Once a group block's prefix fails, the whole block fails with the same error. */
  lemma {:induction false} DecodeRecordsFailurePersists(d: Config, group: string, es: Entries, k: nat, err: DecodeError)
    requires AllDicts(es) && k <= |es|
    requires DecodeRecords(d, group, es[..k]) == Failure(err)
    ensures DecodeRecords(d, group, es) == Failure(err)
    decreases |es| - k
  {
    if k < |es| {
      var e := es[k];
      assert es[..k + 1] == es[..k] + [e];
      DecodeRecordsSnoc(d, group, es[..k], e.0, e.1.entries);
      DecodeRecordsFailurePersists(d, group, es, k + 1, err);
    } else {
      assert es[..k] == es;
    }
  }

  /** One pass of the inner loop of `from_dict`: a next record that decodes is added. */
  lemma DecodeRecordsNext(d: Config, group: string, es: Entries, j: nat, c: Config, r: Repository)
    requires AllDicts(es) && j < |es|
    requires DecodeRecords(d, group, es[..j]) == Success(c)
    requires RepositoryFromDict(es[j].0, es[j].1.entries, group) == Success(r)
    ensures DecodeRecords(d, group, es[..j + 1]) == Success(Add(c, r))
  {
    var prefix := es[..j + 1];
    assert prefix[..|prefix| - 1] == es[..j] && prefix[|prefix| - 1] == es[j];
  }

  /** One pass of the inner loop of `from_dict`: a next record that does not decode stops the block with its error. */
  lemma DecodeRecordsStop(d: Config, group: string, es: Entries, j: nat, c: Config, err: DecodeError)
    requires AllDicts(es) && j < |es|
    requires DecodeRecords(d, group, es[..j]) == Success(c)
    requires RepositoryFromDict(es[j].0, es[j].1.entries, group) == Failure(err)
    ensures DecodeRecords(d, group, es) == Failure(err)
  {
    AllDictsPrefix(es, j + 1);
    assert DecodeRecords(d, group, es[..j + 1]) == Failure(err) by {
      var prefix := es[..j + 1];
      assert prefix[..|prefix| - 1] == es[..j] && prefix[|prefix| - 1] == es[j];
      DecodeRecordsLastFails(d, group, prefix, c, err);
    }
    DecodeRecordsFailurePersists(d, group, es, j + 1, err);
  }

  lemma AllDictsPrefix(es: Entries, k: nat)
    requires AllDicts(es) && k <= |es|
    ensures AllDicts(es[..k])
  {
  }

  /** A block whose last record does not decode, after a prefix that did, fails with that record's error. */
  lemma DecodeRecordsLastFails(d: Config, group: string, es: Entries, c: Config, err: DecodeError)
    requires AllDicts(es) && es != []
    requires DecodeRecords(d, group, es[..|es| - 1]) == Success(c)
    requires RepositoryFromDict(es[|es| - 1].0, es[|es| - 1].1.entries, group) == Failure(err)
    ensures DecodeRecords(d, group, es) == Failure(err)
  {
  }

  lemma DecodeEntriesSnoc(d: Config, es: Entries, key: string, v: Value)
    ensures DecodeEntries(d, es + [(key, v)]) ==
      match DecodeEntries(d, es)
      case Failure(e) => Failure(e)
      case Success(c') => DecodeEntry(c', key, v)
  {
    assert (es + [(key, v)])[..|es|] == es;
  }

  lemma AddRecords(c: Config, r: Repository)
    ensures Add(c, r).repositories == c.repositories[r.name := r]
  {
  }

  lemma MapOfSnoc(repositories: map<string, Repository>, base: map<string, Repository>, names: seq<string>, n: string)
    requires forall m :: m in names ==> m in repositories
    requires n in repositories
    ensures base + MapOf(repositories, names + [n]) == (base + MapOf(repositories, names))[n := repositories[n]]
  {
  }

  /** Reading "default" records back from the top level re-adds each of them. */
  lemma {:induction false} DecodeEntriesOfRecordEntries(d: Config, repositories: map<string, Repository>,
                                                          names: seq<string>)
    requires forall n :: n in names ==> n in repositories
    requires forall n :: n in names ==> repositories[n].name == n && repositories[n].group == DefaultGroup
    ensures DecodeEntries(d, RecordEntries(repositories, names)).Success?
    ensures DecodeEntries(d, RecordEntries(repositories, names)).value.repositories ==
      d.repositories + MapOf(repositories, names)
  {
    if names != [] {
      var init := names[..|names| - 1];
      var n := names[|names| - 1];
      var r := repositories[n];
      assert names == init + [n];
      assert forall m :: m in init ==> m in names;
      var es := RecordEntries(repositories, init);
      RecordEntriesSnoc(repositories, init, n);
      DecodeEntriesOfRecordEntries(d, repositories, init);
      var fields := RepositoryToDict(r);
      assert !fields[0].1.Dict?;
      RepositoryRoundTrip(r);
      var prev := DecodeEntries(d, es).value;
      DecodeEntriesSnoc(d, es, n, Dict(fields));
      assert DecodeEntries(d, RecordEntries(repositories, names)) == Success(Add(prev, r));
      AddRecords(prev, r);
      MapOfSnoc(repositories, d.repositories, init, n);
    }
  }

  /** Decoding a concatenation decodes the first part, then the second from where it left off. */
  lemma {:induction false} DecodeEntriesAppend(d: Config, a: Entries, b: Entries)
    ensures DecodeEntries(d, a + b) ==
      match DecodeEntries(d, a)
      case Failure(e) => Failure(e)
      case Success(d') => DecodeEntries(d', b)
  {
    if b == [] {
      assert a + b == a;
    } else {
      var b' := b[..|b| - 1];
      assert (a + b)[..|a + b| - 1] == a + b';
      assert (a + b)[|a + b| - 1] == b[|b| - 1];
      DecodeEntriesAppend(d, a, b');
    }
  }

  /** Each live name sits only in its own group's list (so no record was moved by re-adding). */
  ghost predicate Consistent(c: Config) {
    forall g, n :: g in c.groups && n in c.groups[g] && n in c.repositories ==> c.repositories[n].group == g
  }

  /** No group other than "default" is named like a record of the "default" group. */
  ghost predicate NoNameClash(c: Config) {
    forall n :: n in c.repositories && c.repositories[n].group == DefaultGroup && n != DefaultGroup ==> n !in c.groups
  }

  /** What `to_dict` writes for group `g`, once no key collides. */
  function Block(c: Config, g: string): Entries
    requires g in c.groups
  {
    var live := Live(c.repositories, c.groups[g]);
    if g == DefaultGroup then RecordEntries(c.repositories, live)
    else if live == [] then []
    else [(g, Dict(RecordEntries(c.repositories, live)))]
  }

  /** The blocks of the groups `gs`, in order. */
  function Blocks(c: Config, gs: seq<string>): Entries
    requires forall g :: g in gs ==> g in c.groups
  {
    if gs == [] then [] else Blocks(c, gs[..|gs| - 1]) + Block(c, gs[|gs| - 1])
  }

  /** The keys the blocks of the groups `gs` use: "default" record names and group names. */
  lemma {:induction false} BlocksKeys(c: Config, gs: seq<string>, k: string)
    requires forall g :: g in gs ==> g in c.groups
    ensures k in Keys(Blocks(c, gs)) ==>
      (DefaultGroup in gs && k in c.groups[DefaultGroup] && k in c.repositories) || (k in gs && k != DefaultGroup)
  {
    if gs != [] {
      var init := gs[..|gs| - 1];
      var g := gs[|gs| - 1];
      BlocksKeys(c, init, k);
      KeysAppend(Blocks(c, init), Block(c, g));
    }
  }

  /** Under the round-trip conditions `to_dict` never overwrites a key, so it writes exactly the blocks. */
  lemma {:induction false} EncodeGroupsIsBlocks(c: Config, i: nat)
    requires Valid(c) && Consistent(c) && NoNameClash(c)
    requires i <= |c.groupOrder|
    ensures EncodeGroups(c, c.groupOrder[..i]) == Blocks(c, c.groupOrder[..i])
  {
    if i > 0 {
      var gs := c.groupOrder[..i];
      var init := c.groupOrder[..i - 1];
      var g := c.groupOrder[i - 1];
      assert gs == init + [g];
      assert gs[..|gs| - 1] == init && gs[|gs| - 1] == g;
      EncodeGroupsIsBlocks(c, i - 1);
      var acc := Blocks(c, init);
      if g == DefaultGroup {
        NoDupIndex(c.groupOrder, i - 1, 0);
        assert init == [];
      } else {
        FreshGroupKey(c, i);
      }
      EncodeGroupIsBlock(c, g, acc);
      assert EncodeGroups(c, gs) == EncodeGroup(c, g, EncodeGroups(c, init));
    }
  }

  /** A group other than "default" is not yet a key of the blocks of the groups before it. */
  lemma FreshGroupKey(c: Config, i: nat)
    requires Valid(c) && Consistent(c) && NoNameClash(c)
    requires 0 < i <= |c.groupOrder| && c.groupOrder[i - 1] != DefaultGroup
    ensures c.groupOrder[i - 1] !in Keys(Blocks(c, c.groupOrder[..i - 1]))
  {
    BlocksKeys(c, c.groupOrder[..i - 1], c.groupOrder[i - 1]);
  }

  /** One pass of the outer loop appends the group's block, when its key is fresh. */
  lemma EncodeGroupIsBlock(c: Config, g: string, acc: Entries)
    requires g in c.groups && NoDup(c.groups[g])
    requires g == DefaultGroup ==> acc == []
    requires g != DefaultGroup ==> g !in Keys(acc)
    ensures EncodeGroup(c, g, acc) == acc + Block(c, g)
  {
    var names := c.groups[g];
    var live := Live(c.repositories, names);
    LiveNoDup(c.repositories, names);
    if names == [] {
      assert live == [];
    } else if g == DefaultGroup {
      PutRecordsAppends(c.repositories, names, []);
      assert [] + RecordEntries(c.repositories, live) == RecordEntries(c.repositories, live);
    } else {
      PutRecordsAppends(c.repositories, names, []);
      var data := PutRecords(c.repositories, names, []);
      assert data == RecordEntries(c.repositories, live);
      assert Keys(data) == live;
    }
  }

  lemma NoDupIndex(s: seq<string>, i: nat, j: nat)
    requires NoDup(s) && i < |s| && j < |s| && s[i] == s[j]
    ensures i == j
  {
  }

  /** The records of the groups `gs`. */
  function Restrict(c: Config, gs: seq<string>): map<string, Repository> {
    map n | n in c.repositories && c.repositories[n].group in gs :: c.repositories[n]
  }

  /** Reading back the blocks of the first `i` groups restores exactly the records of those groups. */
  lemma {:induction false} DecodeBlocks(c: Config, i: nat)
    requires Valid(c) && Consistent(c)
    requires i <= |c.groupOrder|
    ensures DecodeEntries(EmptyConfig, Blocks(c, c.groupOrder[..i])).Success?
    ensures DecodeEntries(EmptyConfig, Blocks(c, c.groupOrder[..i])).value.repositories == Restrict(c, c.groupOrder[..i])
  {
    if i == 0 {
      assert Restrict(c, []) == map[];
    } else {
      var gs := c.groupOrder[..i];
      var init := c.groupOrder[..i - 1];
      var g := c.groupOrder[i - 1];
      assert gs == init + [g];
      assert gs[..|gs| - 1] == init && gs[|gs| - 1] == g;
      assert Blocks(c, gs) == Blocks(c, init) + Block(c, g);
      DecodeBlocks(c, i - 1);
      var d := DecodeEntries(EmptyConfig, Blocks(c, init)).value;
      DecodeEntriesAppend(EmptyConfig, Blocks(c, init), Block(c, g));
      DecodeBlock(c, d, g);
      RestrictSnoc(c, init, g);
    }
  }

  /** Reading back one group's block adds exactly that group's live records. */
  lemma DecodeBlock(c: Config, d: Config, g: string)
    requires Valid(c) && Consistent(c) && g in c.groups
    ensures DecodeEntries(d, Block(c, g)).Success?
    ensures DecodeEntries(d, Block(c, g)).value.repositories ==
      d.repositories + MapOf(c.repositories, Live(c.repositories, c.groups[g]))
  {
    var live := Live(c.repositories, c.groups[g]);
    forall n | n in live ensures c.repositories[n].name == n && c.repositories[n].group == g {}
    if g == DefaultGroup {
      DecodeEntriesOfRecordEntries(d, c.repositories, live);
    } else if live == [] {
      assert MapOf(c.repositories, live) == map[];
    } else {
      var inner := RecordEntries(c.repositories, live);
      DecodeRecordsOfRecordEntries(d, c.repositories, live, g);
      DecodeSingleGroup(d, g, inner);
    }
  }

  /** A document holding one group block reads that block's records. */
  lemma DecodeSingleGroup(d: Config, g: string, inner: Entries)
    requires AllDicts(inner)
    ensures DecodeEntries(d, [(g, Dict(inner))]) == DecodeRecords(d, g, inner)
  {
    assert [(g, Dict(inner))][..0] == [];
  }

  /** The records of one more group are that group's live records. */
  lemma RestrictSnoc(c: Config, init: seq<string>, g: string)
    requires Valid(c) && Consistent(c) && g in c.groups
    ensures Restrict(c, init + [g]) == Restrict(c, init) + MapOf(c.repositories, Live(c.repositories, c.groups[g]))
  {
    var live := Live(c.repositories, c.groups[g]);
    var after, before, added := Restrict(c, init + [g]), Restrict(c, init), MapOf(c.repositories, live);
    forall n ensures n in after <==> n in before || n in added {
      if n in c.repositories && c.repositories[n].group == g {
        assert n in c.groups[c.repositories[n].group];
      }
    }
    MapsAgree(after, before + added, c.repositories);
  }

  /** Two maps with the same keys whose values all come from one map are equal. */
  lemma MapsAgree<K, V>(a: map<K, V>, b: map<K, V>, source: map<K, V>)
    requires forall k :: k in a <==> k in b
    requires forall k :: k in a ==> k in source && a[k] == source[k]
    requires forall k :: k in b ==> k in source && b[k] == source[k]
    ensures a == b
  {
  }

  /**
   * The round trip: writing a collection and reading it back restores every record — its
   * name, group and fields — provided each record's name is listed only in its own group
   * and no other group is named like a "default" record.
   */
  lemma RoundTrip(c: Config)
    requires Valid(c) && Consistent(c) && NoNameClash(c)
    ensures Decode(Encode(c)).Success?
    ensures Decode(Encode(c)).value.repositories == c.repositories
  {
    var k := |c.groupOrder|;
    assert c.groupOrder[..k] == c.groupOrder;
    EncodeGroupsIsBlocks(c, k);
    DecodeBlocks(c, k);
    assert Restrict(c, c.groupOrder) == c.repositories;
  }

  /** The collection of a "default" record `d` and a record `y` in a group named like `d`. */
  function ClashConfig(d: Repository, y: Repository): Config {
    Add(Add(EmptyConfig, d), y)
  }

  lemma ClashConfigShape(d: Repository, y: Repository)
    requires d.group == DefaultGroup && d.name != DefaultGroup
    requires y.group == d.name && y.name != d.name
    ensures var c := ClashConfig(d, y);
      && c.repositories == map[d.name := d, y.name := y]
      && c.groups == map[DefaultGroup := [d.name], d.name := [y.name]]
      && c.groupOrder == [DefaultGroup, d.name]
  {
    var c0 := Add(EmptyConfig, d);
    assert EmptyConfig.groups[DefaultGroup] == [] && [] + [d.name] == [d.name];
    assert c0.groups == map[DefaultGroup := [d.name]];
    assert y.group !in c0.groups && [] + [y.name] == [y.name];
    var c := Add(c0, y);
    assert c.groups == c0.groups[d.name := [y.name]];
  }

  lemma ClashConfigValid(d: Repository, y: Repository)
    requires d.group == DefaultGroup && d.name != DefaultGroup
    requires y.group == d.name && y.name != d.name
    ensures var c := ClashConfig(d, y);
      Valid(c) && Consistent(c) && !NoNameClash(c)
  {
    var c := ClashConfig(d, y);
    EmptyConfigValid();
    AddValid(EmptyConfig, d);
    AddValid(Add(EmptyConfig, d), y);
    ClashConfigShape(d, y);
    assert d.name in c.repositories && c.repositories[d.name].group == DefaultGroup && d.name in c.groups;
    forall g, n | g in c.groups && n in c.groups[g] && n in c.repositories
      ensures c.repositories[n].group == g
    {
      if g == DefaultGroup {
        assert n == d.name;
      } else {
        assert g == d.name && n == y.name;
      }
    }
  }

  lemma ClashEncode(d: Repository, y: Repository)
    requires d.group == DefaultGroup && d.name != DefaultGroup
    requires y.group == d.name && y.name != d.name
    ensures Encode(ClashConfig(d, y)) == [(d.name, Dict([(y.name, Dict(RepositoryToDict(y)))]))]
  {
    var c := ClashConfig(d, y);
    ClashConfigShape(d, y);
    var fd := Dict(RepositoryToDict(d));
    assert [d.name][..0] == [] && [y.name][..0] == [];
    assert PutRecords(c.repositories, [d.name], []) == [(d.name, fd)];
    assert PutRecords(c.repositories, [y.name], []) == [(y.name, Dict(RepositoryToDict(y)))];
    assert EncodeGroups(c, [DefaultGroup]) == [(d.name, fd)] by {
      assert [DefaultGroup][..0] == [];
    }
    assert c.groupOrder[..1] == [DefaultGroup];
  }

  lemma ClashDecode(key: string, y: Repository)
    requires y.group == key
    ensures Decode([(key, Dict([(y.name, Dict(RepositoryToDict(y)))]))]) == Success(Add(EmptyConfig, y))
  {
    var data := [(y.name, Dict(RepositoryToDict(y)))];
    RepositoryRoundTrip(y);
    DecodeRecordsSnoc(EmptyConfig, key, [], y.name, RepositoryToDict(y));
    assert [] + data == data;
    DecodeSingleGroup(EmptyConfig, key, data);
  }

  /**
   * Without `NoNameClash` the round trip can lose a record: a "default" record named like
   * another group is written at the top level under its name, and the group's block,
   * written later under the same key, replaces it in place. Reading back then finds only the
   * group's records.
   */
  lemma NameClashLosesRecord(d: Repository, y: Repository)
    requires d.group == DefaultGroup && d.name != DefaultGroup
    requires y.group == d.name && y.name != d.name
    ensures var c := ClashConfig(d, y);
      && Valid(c) && Consistent(c) && !NoNameClash(c)
      && d.name in c.repositories
      && Decode(Encode(c)).Success?
      && d.name !in Decode(Encode(c)).value.repositories
  {
    ClashConfigValid(d, y);
    ClashConfigShape(d, y);
    ClashEncode(d, y);
    ClashDecode(d.name, y);
  }
}
