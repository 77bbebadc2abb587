/**
 What inheritance means: merging is associative exactly when the middle file names no address twice in a
 list, so reading a file with its bases is one left-to-right merge of the files in post-order.
 */
module TestTomlFacts {
  import opened Wrappers
  import opened TestToml

  // ---------------------------------------------------------------- finding an entry

  predicate Unique<T>(entries: seq<Entry<T>>) {
    forall i, j :: 0 <= i < j < |entries| ==> entries[i].address != entries[j].address
  }

  /** The payload of the first entry with the address. */
  function Find<T>(entries: seq<Entry<T>>, address: string): Option<T> {
    if entries == [] then
      None
    else if entries[0].address == address then
      Some(entries[0].payload)
    else
      Find(entries[1..], address)
  }

  /** The payload of the last one. */
  function FindLast<T>(entries: seq<Entry<T>>, address: string): Option<T> {
    if entries == [] then
      None
    else
      var later := FindLast(entries[1..], address);
      if later.Some? then later else if entries[0].address == address then Some(entries[0].payload) else None
  }

  lemma {:induction false} FindPut<T>(entries: seq<Entry<T>>, e: Entry<T>, address: string)
    ensures Find(Put(entries, e), address) == if address == e.address then Some(e.payload) else Find(entries, address)
  {
    if entries != [] && entries[0].address != e.address {
      FindPut(entries[1..], e, address);
      assert Put(entries, e)[1..] == Put(entries[1..], e);
    } else if entries != [] {
      assert Put(entries, e)[1..] == entries[1..];
    }
  }

  /** After an upsert an address has the last payload given for it, or the first it had before. */
  lemma {:induction false} FindUpsert<T>(entries: seq<Entry<T>>, others: seq<Entry<T>>, address: string)
    ensures Find(Upsert(entries, others), address) == Or(Find(entries, address), FindLast(others, address))
    decreases others
  {
    if others != [] {
      FindUpsert(Put(entries, others[0]), others[1..], address);
      FindPut(entries, others[0], address);
    }
  }

  predicate Has<T>(entries: seq<Entry<T>>, address: string) {
    exists i :: 0 <= i < |entries| && entries[i].address == address
  }

  lemma {:induction false} PutAddresses<T>(entries: seq<Entry<T>>, e: Entry<T>, address: string)
    ensures Has(Put(entries, e), address) <==> Has(entries, address) || address == e.address
  {
    if entries == [] {
      assert Put(entries, e)[0] == e;
    } else if entries[0].address == e.address {
      var r := Put(entries, e);
      assert forall i :: 0 <= i < |entries| ==> r[i].address == entries[i].address;
    } else {
      PutAddresses(entries[1..], e, address);
      HasHeadTail(entries, address);
      HasHeadTail(Put(entries, e), address);
      assert Put(entries, e)[1..] == Put(entries[1..], e);
    }
  }

  lemma HasHeadTail<T>(entries: seq<Entry<T>>, address: string)
    requires entries != []
    ensures Has(entries, address) <==> entries[0].address == address || Has(entries[1..], address)
  {
    if i :| 0 < i < |entries| && entries[i].address == address {
      assert entries[1..][i - 1].address == address;
    }
  }

  lemma UniqueHeadTail<T>(entries: seq<Entry<T>>)
    requires entries != []
    ensures Unique(entries) <==> Unique(entries[1..]) && !Has(entries[1..], entries[0].address)
  {
    var rest := entries[1..];
    if Unique(rest) && !Has(rest, entries[0].address) {
      forall i, j | 0 <= i < j < |entries|
        ensures entries[i].address != entries[j].address
      {
        assert entries[j] == rest[j - 1];
        if i > 0 {
          assert entries[i] == rest[i - 1];
        }
      }
    }
  }

  lemma {:induction false} PutKeepsUnique<T>(entries: seq<Entry<T>>, e: Entry<T>)
    requires Unique(entries)
    ensures Unique(Put(entries, e))
  {
    if entries != [] {
      UniqueHeadTail(entries);
      if entries[0].address == e.address {
        assert Put(entries, e)[1..] == entries[1..];
      } else {
        PutKeepsUnique(entries[1..], e);
        PutAddresses(entries[1..], e, entries[0].address);
        assert Put(entries, e)[1..] == Put(entries[1..], e);
      }
      UniqueHeadTail(Put(entries, e));
    }
  }

  lemma {:induction false} UpsertKeepsUnique<T>(entries: seq<Entry<T>>, others: seq<Entry<T>>)
    requires Unique(entries)
    ensures Unique(Upsert(entries, others))
    decreases others
  {
    if others != [] {
      PutKeepsUnique(entries, others[0]);
      UpsertKeepsUnique(Put(entries, others[0]), others[1..]);
    }
  }

  function Addresses<T>(entries: seq<Entry<T>>): (r: seq<string>)
    ensures |r| == |entries|
  {
    if entries == [] then [] else [entries[0].address] + Addresses(entries[1..])
  }

  /** A list of addresses with those of another that it lacks, in their order. */
  function Added(addresses: seq<string>, others: seq<string>): seq<string>
    decreases others
  {
    if others == [] then addresses
    else Added(if others[0] in addresses then addresses else addresses + [others[0]], others[1..])
  }

  lemma {:induction false} PutOrder<T>(entries: seq<Entry<T>>, e: Entry<T>)
    ensures Addresses(Put(entries, e)) ==
            if e.address in Addresses(entries) then Addresses(entries) else Addresses(entries) + [e.address]
  {
    if entries == [] {
      assert [e][1..] == [];
    } else if entries[0].address == e.address {
      assert Put(entries, e)[1..] == entries[1..];
    } else {
      PutOrder(entries[1..], e);
      assert Put(entries, e)[1..] == Put(entries[1..], e);
      assert Addresses(entries) == [entries[0].address] + Addresses(entries[1..]);
    }
  }

  /** An upsert keeps every entry's place and adds new addresses behind, in the order they are given. */
  lemma {:induction false} UpsertOrder<T>(entries: seq<Entry<T>>, others: seq<Entry<T>>)
    ensures Addresses(Upsert(entries, others)) == Added(Addresses(entries), Addresses(others))
    decreases others
  {
    if others != [] {
      PutOrder(entries, others[0]);
      UpsertOrder(Put(entries, others[0]), others[1..]);
      assert Addresses(others)[1..] == Addresses(others[1..]);
    }
  }

  // ---------------------------------------------------------------- associativity of one list

  lemma {:induction false} PutPut<T>(entries: seq<Entry<T>>, e: Entry<T>, f: Entry<T>)
    requires e.address == f.address
    ensures Put(Put(entries, e), f) == Put(entries, f)
  {
    if entries != [] && entries[0].address != e.address {
      PutPut(entries[1..], e, f);
      assert Put(entries, e)[1..] == Put(entries[1..], e);
    }
  }

  /** Replacing an entry commutes with putting another address. */
  lemma {:induction false} PutCommutes<T>(entries: seq<Entry<T>>, e: Entry<T>, f: Entry<T>)
    requires Has(entries, e.address) && e.address != f.address
    ensures Put(Put(entries, f), e) == Put(Put(entries, e), f)
  {
    HasHeadTail(entries, e.address);
    var rest := entries[1..];
    if entries[0].address == e.address {
      assert Put(entries, f)[1..] == Put(rest, f);
      assert Put(entries, e)[1..] == rest;
    } else if entries[0].address == f.address {
      assert Put(entries, f)[1..] == rest;
      assert Put(entries, e)[1..] == Put(rest, e);
    } else {
      PutCommutes(rest, e, f);
      assert Put(entries, f)[1..] == Put(rest, f);
      assert Put(entries, e)[1..] == Put(rest, e);
    }
  }

  lemma {:induction false} PutPastUpsert<T>(entries: seq<Entry<T>>, others: seq<Entry<T>>, e: Entry<T>)
    requires Has(entries, e.address) && !Has(others, e.address)
    ensures Put(Upsert(entries, others), e) == Upsert(Put(entries, e), others)
    decreases others
  {
    if others != [] {
      HasHeadTail(others, e.address);
      PutAddresses(entries, others[0], e.address);
      PutPastUpsert(Put(entries, others[0]), others[1..], e);
      PutCommutes(entries, e, others[0]);
    }
  }

  lemma {:induction false} UpsertPut<T>(x: seq<Entry<T>>, y: seq<Entry<T>>, e: Entry<T>)
    requires Unique(y)
    ensures Upsert(x, Put(y, e)) == Put(Upsert(x, y), e)
    decreases y
  {
    if y == [] {
      assert [e][1..] == [];
    } else {
      UniqueHeadTail(y);
      if y[0].address == e.address {
        assert Put(y, e)[1..] == y[1..];
        PutAddresses(x, y[0], e.address);
        PutPastUpsert(Put(x, y[0]), y[1..], e);
        PutPut(x, y[0], e);
      } else {
        assert Put(y, e)[1..] == Put(y[1..], e);
        UpsertPut(Put(x, y[0]), y[1..], e);
      }
    }
  }

  lemma {:induction false} UpsertAssociative<T>(x: seq<Entry<T>>, y: seq<Entry<T>>, z: seq<Entry<T>>)
    requires Unique(y)
    ensures Upsert(Upsert(x, y), z) == Upsert(x, Upsert(y, z))
    decreases z
  {
    if z != [] {
      UpsertPut(x, y, z[0]);
      PutKeepsUnique(y, z[0]);
      UpsertAssociative(x, Put(y, z[0]), z[1..]);
    }
  }

  ghost predicate Associates<T(!new)>(y: seq<Entry<T>>) {
    forall x, z :: Upsert(Upsert(x, y), z) == Upsert(x, Upsert(y, z))
  }

  lemma {:induction false} FindLastSome<T>(entries: seq<Entry<T>>, address: string)
    ensures FindLast(entries, address).Some? <==> Has(entries, address)
  {
    if entries != [] {
      FindLastSome(entries[1..], address);
      HasHeadTail(entries, address);
    }
  }

  /** Putting an address that occurs twice changes the first occurrence, not the last. */
  lemma {:induction false} PutMissesLast<T>(entries: seq<Entry<T>>, i: nat, j: nat, e: Entry<T>)
    requires i < j < |entries| && entries[i].address == entries[j].address == e.address
    ensures FindLast(Put(entries, e), e.address) == FindLast(entries, e.address)
  {
    if entries[0].address == e.address {
      assert Put(entries, e)[1..] == entries[1..];
      assert entries[1..][j - 1].address == e.address;
      FindLastSome(entries[1..], e.address);
    } else {
      PutMissesLast(entries[1..], i - 1, j - 1, e);
      assert Put(entries, e)[1..] == Put(entries[1..], e);
    }
  }

  /** A list that names an address twice: an entry on its right whose value the merge then loses. */
  lemma DuplicateBreaks<T>(y: seq<Entry<T>>, i: nat, j: nat, v: T)
    requires i < j < |y| && y[i].address == y[j].address && FindLast(y, y[i].address) != Some(v)
    ensures var z := [Entry(y[i].address, v)]; Upsert(Upsert([], y), z) != Upsert([], Upsert(y, z))
  {
    var a := y[i].address;
    var e := Entry(a, v);
    assert Upsert(y, [e]) == Put(y, e) && Upsert(Upsert([], y), [e]) == Put(Upsert([], y), e) by {
      assert [e][1..] == [];
    }
    FindPut(Upsert([], y), e, a);
    FindUpsert([], Put(y, e), a);
    PutMissesLast(y, i, j, e);
    FindLastSome(y, a);
  }

  /** With two payloads to tell apart, upserts re-associate around a list exactly when its addresses differ. */
  lemma AssociatesExactly<T(!new)>(y: seq<Entry<T>>, p: T, q: T)
    requires p != q
    ensures Associates(y) <==> Unique(y)
  {
    if Unique(y) {
      forall x, z
        ensures Upsert(Upsert(x, y), z) == Upsert(x, Upsert(y, z))
      {
        UpsertAssociative(x, y, z);
      }
    } else {
      var i, j :| 0 <= i < j < |y| && y[i].address == y[j].address;
      var v := if FindLast(y, y[i].address) == Some(p) then q else p;
      DuplicateBreaks(y, i, j, v);
    }
  }

  lemma {:induction false} UnitPut(entries: seq<CloneEntry>, e: CloneEntry)
    ensures Put(entries, e) == if Has(entries, e.address) then entries else entries + [e]
  {
    if entries != [] {
      HasHeadTail(entries, e.address);
      if entries[0].address == e.address {
        assert entries[0].payload == () == e.payload;
        assert [e] + entries[1..] == entries;
      } else {
        UnitPut(entries[1..], e);
        assert [entries[0]] + entries[1..] == entries;
        assert [entries[0]] + (entries[1..] + [e]) == entries + [e];
      }
    }
  }

  lemma {:induction false} UpsertAddresses<T>(entries: seq<Entry<T>>, others: seq<Entry<T>>, address: string)
    ensures Has(Upsert(entries, others), address) <==> Has(entries, address) || Has(others, address)
    decreases others
  {
    if others != [] {
      UpsertAddresses(Put(entries, others[0]), others[1..], address);
      PutAddresses(entries, others[0], address);
      HasHeadTail(others, address);
    }
  }

  /** Entries that are nothing but an address re-associate whatever the list. */
  lemma {:induction false} CloneAssociative(x: seq<CloneEntry>, y: seq<CloneEntry>, z: seq<CloneEntry>)
    ensures Upsert(Upsert(x, y), z) == Upsert(x, Upsert(y, z))
    decreases z
  {
    if z != [] {
      var e := z[0];
      UnitPut(y, e);
      UnitPut(Upsert(x, y), e);
      UpsertAddresses(x, y, e.address);
      UpsertSnoc(x, y, e);
      CloneAssociative(x, Put(y, e), z[1..]);
    }
  }

  // ---------------------------------------------------------------- associativity of files

  predicate UniqueEntries<T>(entries: Option<seq<Entry<T>>>) {
    entries.Some? ==> Unique(entries.value)
  }

  /** A validator's accounts name no address twice. */
  predicate UniqueAccounts(v: Option<Validator>) {
    v.Some? ==> UniqueEntries(v.value.account)
  }

  predicate UniqueAddresses(t: Toml) {
    t.test.Some? ==> UniqueEntries(t.test.value.genesis) && UniqueAccounts(t.test.value.validator)
  }

  lemma EntriesAssociative<T>(x: Option<seq<Entry<T>>>, y: Option<seq<Entry<T>>>, z: Option<seq<Entry<T>>>)
    requires UniqueEntries(y)
    ensures MergedEntries(MergedEntries(x, y), z) == MergedEntries(x, MergedEntries(y, z))
  {
    if x.Some? && y.Some? && z.Some? {
      UpsertAssociative(x.value, y.value, z.value);
    }
  }

  lemma ClonesAssociative(x: Option<seq<CloneEntry>>, y: Option<seq<CloneEntry>>, z: Option<seq<CloneEntry>>)
    ensures MergedEntries(MergedEntries(x, y), z) == MergedEntries(x, MergedEntries(y, z))
  {
    if x.Some? && y.Some? && z.Some? {
      CloneAssociative(x.value, y.value, z.value);
    }
  }

  lemma ValidatorsAssociative(x: Option<Validator>, y: Option<Validator>, z: Option<Validator>)
    requires UniqueAccounts(y)
    ensures MergedValidators(MergedValidators(x, y), z) == MergedValidators(x, MergedValidators(y, z))
  {
    hide MergedEntries, UniqueEntries;
    if x.Some? && y.Some? && z.Some? {
      EntriesAssociative(x.value.account, y.value.account, z.value.account);
      ClonesAssociative(x.value.clones, y.value.clones, z.value.clones);
    }
  }

  lemma TestAssociative(x: Option<TestSection>, y: Option<TestSection>, z: Option<TestSection>)
    requires y.Some? ==> UniqueEntries(y.value.genesis) && UniqueAccounts(y.value.validator)
    ensures MergedTest(MergedTest(x, y), z) == MergedTest(x, MergedTest(y, z))
  {
    hide MergedEntries, MergedValidators, UniqueEntries, UniqueAccounts;
    if x.Some? && y.Some? && z.Some? {
      EntriesAssociative(x.value.genesis, y.value.genesis, z.value.genesis);
      ValidatorsAssociative(x.value.validator, y.value.validator, z.value.validator);
    }
  }

  lemma ScriptsAssociative(x: Option<map<string, string>>, y: Option<map<string, string>>,
                           z: Option<map<string, string>>)
    ensures MergedScripts(MergedScripts(x, y), z) == MergedScripts(x, MergedScripts(y, z))
  {
    if x.Some? && y.Some? && z.Some? {
      assert (x.value + y.value) + z.value == x.value + (y.value + z.value);
    }
  }

  lemma MergeAssociative(x: Toml, y: Toml, z: Toml)
    requires UniqueAddresses(y)
    ensures Merged(Merged(x, y), z) == Merged(x, Merged(y, z))
  {
    hide MergedTest, MergedScripts;
    TestAssociative(x.test, y.test, z.test);
    ScriptsAssociative(x.scripts, y.scripts, z.scripts);
  }

  ghost predicate MergeAssociates(y: Toml) {
    forall x, z :: Merged(Merged(x, y), z) == Merged(x, Merged(y, z))
  }

  const NO_VALIDATOR :=
    Validator(None, None, None, None, None, None, None, None, None, None, None, None, None, None)

  function GenesisOnly(entries: seq<GenesisEntry>): Toml {
    Toml(None, Some(TestSection(Some(entries), None, None, None)), None)
  }

  function AccountsOnly(entries: seq<AccountEntry>): Toml {
    Toml(None, Some(TestSection(None, Some(NO_VALIDATOR.(account := Some(entries))), None, None)), None)
  }

  /** Merging re-associates around a file exactly when none of its keyed lists names an address twice. */
  lemma MergeAssociatesExactly(y: Toml)
    ensures MergeAssociates(y) <==> UniqueAddresses(y)
  {
    if UniqueAddresses(y) {
      forall x, z
        ensures Merged(Merged(x, y), z) == Merged(x, Merged(y, z))
      {
        MergeAssociative(x, y, z);
      }
    } else if !UniqueEntries(y.test.value.genesis) {
      GenesisBreaks(y, y.test.value.genesis.value);
    } else {
      AccountsBreak(y, y.test.value.validator.value.account.value);
    }
  }

  lemma NotAssociating(entries: seq<Entry<string>>) returns (x: seq<Entry<string>>, z: seq<Entry<string>>)
    requires !Unique(entries)
    ensures Upsert(Upsert(x, entries), z) != Upsert(x, Upsert(entries, z))
  {
    AssociatesExactly(entries, "", "a");
    x, z :| Upsert(Upsert(x, entries), z) != Upsert(x, Upsert(entries, z));
  }

  lemma GenesisBreaks(y: Toml, entries: seq<GenesisEntry>)
    requires y.test.Some? && y.test.value.genesis == Some(entries) && !Unique(entries)
    ensures !MergeAssociates(y)
  {
    var x, z := NotAssociating(entries);
    var left := Merged(Merged(GenesisOnly(x), y), GenesisOnly(z));
    var right := Merged(GenesisOnly(x), Merged(y, GenesisOnly(z)));
    assert left.test.value.genesis == Some(Upsert(Upsert(x, entries), z));
    assert right.test.value.genesis == Some(Upsert(x, Upsert(entries, z)));
  }

  lemma AccountsBreak(y: Toml, entries: seq<AccountEntry>)
    requires y.test.Some? && y.test.value.validator.Some?
    requires y.test.value.validator.value.account == Some(entries) && !Unique(entries)
    ensures !MergeAssociates(y)
  {
    var x, z := NotAssociating(entries);
    var left := Merged(Merged(AccountsOnly(x), y), AccountsOnly(z));
    var right := Merged(AccountsOnly(x), Merged(y, AccountsOnly(z)));
    assert left.test.value.validator.value.account == Some(Upsert(Upsert(x, entries), z));
    assert right.test.value.validator.value.account == Some(Upsert(x, Upsert(entries, z)));
  }

  /** Merging keeps lists free of repeated addresses. */
  lemma MergeKeepsUnique(x: Toml, y: Toml)
    requires UniqueAddresses(x) && UniqueAddresses(y)
    ensures UniqueAddresses(Merged(x, y))
  {
    if x.test.Some? && y.test.Some? {
      EntriesKeepUnique(x.test.value.genesis, y.test.value.genesis);
      if x.test.value.validator.Some? && y.test.value.validator.Some? {
        EntriesKeepUnique(x.test.value.validator.value.account, y.test.value.validator.value.account);
      }
    }
  }

  lemma EntriesKeepUnique<T>(x: Option<seq<Entry<T>>>, y: Option<seq<Entry<T>>>)
    requires UniqueEntries(x) && UniqueEntries(y)
    ensures UniqueEntries(MergedEntries(x, y))
  {
    if x.Some? && y.Some? {
      UpsertKeepsUnique(x.value, y.value);
    }
  }

  /** The empty file changes nothing on the right; on the left only the list of bases is lost. */
  lemma EmptyIsIdentity(t: Toml)
    ensures Merged(t, EMPTY) == t
    ensures Merged(EMPTY, t) == t.(inherits := None)
  {
  }

  // ---------------------------------------------------------------- flattening

  /** The files reading a path merges, bases before the file that names them, as often as they are named. */
  ghost function PostOrder(files: Files, rank: string -> nat, path: string): (order: seq<string>)
    requires Acyclic(files, rank)
    decreases rank(path) + 1, 0
  {
    (if path in files then PostOrderAll(files, rank, rank(path), Bases(files[path])) else []) + [path]
  }

  ghost function PostOrderAll(files: Files, rank: string -> nat, top: nat, bases: seq<string>): seq<string>
    requires Acyclic(files, rank) && Below(bases, rank, top)
    decreases top, |bases|
  {
    if bases == [] then []
    else PostOrder(files, rank, bases[0]) + PostOrderAll(files, rank, top, bases[1..])
  }

  /** Merge the files of a list one after the other. */
  ghost function Fold(files: Files, sofar: Toml, order: seq<string>): Toml
    requires Readable(files, order)
    decreases order
  {
    if order == [] then sofar else Fold(files, Merged(sofar, files[order[0]]), order[1..])
  }

  ghost predicate Readable(files: Files, order: seq<string>) {
    forall i :: 0 <= i < |order| ==> order[i] in files
  }

  ghost predicate AllUnique(files: Files) {
    forall p :: p in files ==> UniqueAddresses(files[p])
  }

  lemma {:induction false} FoldAppend(files: Files, sofar: Toml, left: seq<string>, right: seq<string>)
    requires Readable(files, left) && Readable(files, right) && Readable(files, left + right)
    ensures Fold(files, sofar, left + right) == Fold(files, Fold(files, sofar, left), right)
    decreases left
  {
    hide Merged;
    if left == [] {
      assert left + right == right;
    } else {
      assert (left + right)[0] == left[0] && (left + right)[1..] == left[1..] + right;
      FoldAppend(files, Merged(sofar, files[left[0]]), left[1..], right);
    }
  }

  lemma {:induction false} FoldKeepsUnique(files: Files, sofar: Toml, order: seq<string>)
    requires AllUnique(files) && UniqueAddresses(sofar) && Readable(files, order)
    ensures UniqueAddresses(Fold(files, sofar, order))
    decreases order
  {
    hide Merged, UniqueAddresses;
    if order != [] {
      MergeKeepsUnique(sofar, files[order[0]]);
      FoldKeepsUnique(files, Merged(sofar, files[order[0]]), order[1..]);
    }
  }

  /** Merging a merged list is going on with the list. */
  lemma {:induction false} AbsorbFold(files: Files, sofar: Toml, first: Toml, order: seq<string>)
    requires AllUnique(files) && UniqueAddresses(first) && Readable(files, order)
    ensures Merged(sofar, Fold(files, first, order)) == Fold(files, Merged(sofar, first), order)
    decreases order
  {
    hide Merged, UniqueAddresses;
    if order != [] {
      var f := files[order[0]];
      MergeKeepsUnique(first, f);
      AbsorbFold(files, sofar, Merged(first, f), order[1..]);
      MergeAssociative(sofar, first, f);
    }
  }

  /**
   Flattening: when no file names an address twice in a list, reading a path succeeds exactly when every file
   it reaches can be read, and gives the left-to-right merge of those files in post-order.
   */
  lemma {:induction false} Flattening(files: Files, rank: string -> nat, path: string)
    requires Acyclic(files, rank) && AllUnique(files)
    ensures var order := PostOrder(files, rank, path);
            match Resolved(files, rank, path)
            case Failure(p) => p in order && p !in files
            case Success(t) => Readable(files, order) && t == Fold(files, EMPTY, order)
    decreases rank(path) + 1, 0
  {
    hide Merged, UniqueAddresses;
    var order := PostOrder(files, rank, path);
    if path !in files {
      assert order == [path] && order[0] !in files;
    } else {
      var before := PostOrderAll(files, rank, rank(path), Bases(files[path]));
      assert order == before + [path];
      assert Readable(files, order) <==> Readable(files, before) by {
        ReadableAppend(files, before, [path]);
      }
      FlatteningAll(files, rank, rank(path), EMPTY, Bases(files[path]));
      if Readable(files, before) {
        FoldAppend(files, EMPTY, before, [path]);
        FoldOne(files, Fold(files, EMPTY, before), path);
      }
    }
  }

  lemma FoldOne(files: Files, sofar: Toml, path: string)
    requires path in files
    ensures Readable(files, [path]) && Fold(files, sofar, [path]) == Merged(sofar, files[path])
  {
    assert [path][1..] == [];
  }

  lemma ReadableAppend(files: Files, left: seq<string>, right: seq<string>)
    ensures Readable(files, left + right) <==> Readable(files, left) && Readable(files, right)
  {
    if Readable(files, left + right) {
      forall i | 0 <= i < |left|
        ensures left[i] in files
      {
        assert left[i] == (left + right)[i];
      }
      forall i | 0 <= i < |right|
        ensures right[i] in files
      {
        assert right[i] == (left + right)[|left| + i];
      }
    }
  }

  lemma {:induction false} FlatteningAll(files: Files, rank: string -> nat, top: nat, sofar: Toml, bases: seq<string>)
    requires Acyclic(files, rank) && AllUnique(files) && Below(bases, rank, top)
    ensures var order := PostOrderAll(files, rank, top, bases);
            match ResolvedAll(files, rank, top, sofar, bases)
            case Failure(p) => p in order && p !in files
            case Success(t) => Readable(files, order) && t == Fold(files, sofar, order)
    decreases top, |bases|
  {
    hide Merged, UniqueAddresses;
    if bases != [] {
      var first := PostOrder(files, rank, bases[0]);
      var rest := PostOrderAll(files, rank, top, bases[1..]);
      ReadableAppend(files, first, rest);
      Flattening(files, rank, bases[0]);
      var base := Resolved(files, rank, bases[0]);
      if base.Success? {
        FlatteningAll(files, rank, top, Merged(sofar, base.value), bases[1..]);
        EmptyIsUnique();
        AbsorbFold(files, sofar, EMPTY, first);
        EmptyIsIdentity(sofar);
        if Readable(files, rest) {
          FoldAppend(files, sofar, first, rest);
        }
      }
    }
  }

  lemma EmptyIsUnique()
    ensures UniqueAddresses(EMPTY)
  {
  }

  /** A base may come in by several ways; what it is merged into still names no address twice. */
  lemma ResolvedIsUnique(files: Files, rank: string -> nat, path: string)
    requires Acyclic(files, rank) && AllUnique(files) && Resolved(files, rank, path).Success?
    ensures UniqueAddresses(Resolved(files, rank, path).value)
  {
    Flattening(files, rank, path);
    FoldKeepsUnique(files, EMPTY, PostOrder(files, rank, path));
  }

  // ---------------------------------------------------------------- cycles

  /** Files each of which names the next as a base. */
  ghost predicate Chain(files: Files, c: seq<string>) {
    forall i :: 0 <= i < |c| - 1 ==> c[i] in files && c[i + 1] in Bases(files[c[i]])
  }

  /** Some file reaches itself through its bases. */
  ghost predicate Cyclic(files: Files) {
    exists c :: Chain(files, c) && |c| >= 2 && c[0] == c[|c| - 1]
  }

  ghost predicate Ranked(files: Files) {
    exists rank: string -> nat :: Acyclic(files, rank)
  }

  lemma {:induction false} ChainDescends(files: Files, rank: string -> nat, c: seq<string>)
    requires Acyclic(files, rank) && Chain(files, c) && c != []
    ensures rank(c[|c| - 1]) + |c| - 1 <= rank(c[0])
  {
    if |c| > 1 {
      ChainDescends(files, rank, c[1..]);
      var i :| 0 <= i < |Bases(files[c[0]])| && Bases(files[c[0]])[i] == c[1];
    }
  }

  /** The longest chain of files from a path, counted up to a limit. */
  ghost function Depth(files: Files, path: string, limit: nat): (d: nat)
    ensures d <= limit
    decreases limit, 0
  {
    if path !in files || limit == 0 then 0 else 1 + Deepest(files, Bases(files[path]), limit - 1)
  }

  ghost function Deepest(files: Files, bases: seq<string>, limit: nat): (d: nat)
    ensures d <= limit
    ensures forall i :: 0 <= i < |bases| ==> Depth(files, bases[i], limit) <= d
    decreases limit, |bases|
  {
    if bases == [] then 0
    else
      var first, rest := Depth(files, bases[0], limit), Deepest(files, bases[1..], limit);
      if rest <= first then first else rest
  }

  /** Below its limit, a depth is final. */
  lemma {:induction false} DepthFinal(files: Files, path: string, limit: nat)
    requires Depth(files, path, limit) < limit
    ensures Depth(files, path, limit + 1) == Depth(files, path, limit)
    decreases limit, 0
  {
    if path in files {
      DeepestFinal(files, Bases(files[path]), limit - 1);
    }
  }

  lemma {:induction false} DeepestFinal(files: Files, bases: seq<string>, limit: nat)
    requires Deepest(files, bases, limit) < limit
    ensures Deepest(files, bases, limit + 1) == Deepest(files, bases, limit)
    decreases limit, |bases|
  {
    if bases != [] {
      DepthFinal(files, bases[0], limit);
      DeepestFinal(files, bases[1..], limit);
    }
  }

  /** A depth at its limit comes from a chain of that many files. */
  lemma {:induction false} DeepChain(files: Files, path: string, limit: nat) returns (c: seq<string>)
    requires limit > 0 && Depth(files, path, limit) == limit
    ensures |c| == limit && c[0] == path && Chain(files, c) && forall i :: 0 <= i < |c| ==> c[i] in files
    decreases limit
  {
    c := [path];
    if limit > 1 {
      var b := DeepestBase(files, Bases(files[path]), limit - 1);
      var rest := DeepChain(files, b, limit - 1);
      c := [path] + rest;
    }
  }

  lemma {:induction false} DeepestBase(files: Files, bases: seq<string>, limit: nat) returns (b: string)
    requires limit > 0 && Deepest(files, bases, limit) == limit
    ensures b in bases && Depth(files, b, limit) == limit
    decreases |bases|
  {
    b := bases[0];
    if Depth(files, b, limit) != limit {
      b := DeepestBase(files, bases[1..], limit);
    }
  }

  lemma {:induction false} DistinctFit(c: seq<string>, all: set<string>)
    requires forall i :: 0 <= i < |c| ==> c[i] in all
    requires forall i, j :: 0 <= i < j < |c| ==> c[i] != c[j]
    ensures |c| <= |all|
    decreases |c|
  {
    if c != [] {
      DistinctFit(c[..|c| - 1], all - {c[|c| - 1]});
    }
  }

  /** A chain of more files than there are closes a cycle. */
  lemma LongChainCycles(files: Files, c: seq<string>)
    requires Chain(files, c) && |c| > |files| && forall i :: 0 <= i < |c| ==> c[i] in files
    ensures Cyclic(files)
  {
    if i, j :| 0 <= i < j < |c| && c[i] == c[j] {
      var cycle := c[i..j + 1];
      assert Chain(files, cycle) && cycle[0] == cycle[|cycle| - 1];
    } else {
      DistinctFit(c, files.Keys);
    }
  }

  lemma DepthRanks(files: Files, path: string, i: nat)
    requires !Cyclic(files) && path in files && i < |Bases(files[path])|
    ensures Depth(files, Bases(files[path])[i], |files| + 2) < Depth(files, path, |files| + 2)
  {
    var b, n := Bases(files[path])[i], |files| + 1;
    if Depth(files, b, n) == n {
      var c := DeepChain(files, b, n);
      LongChainCycles(files, c);
    } else {
      DepthFinal(files, b, n);
    }
  }

  /** What FromPath asks for is exactly that no file extends itself, directly or through others. */
  lemma AcyclicExactly(files: Files)
    ensures Ranked(files) <==> !Cyclic(files)
  {
    if Ranked(files) && Cyclic(files) {
      var rank: string -> nat :| Acyclic(files, rank);
      var c :| Chain(files, c) && |c| >= 2 && c[0] == c[|c| - 1];
      ChainDescends(files, rank, c);
    }
    if !Cyclic(files) {
      var rank := p => Depth(files, p, |files| + 2);
      forall p, i | p in files && 0 <= i < |Bases(files[p])|
        ensures rank(Bases(files[p])[i]) < rank(p)
      {
        DepthRanks(files, p, i);
      }
      assert Acyclic(files, rank);
    }
  }

  // ---------------------------------------------------------------- the two waits

  function Startup(t: Toml): Option<int> {
    if t.test.Some? then t.test.value.startupWait else None
  }

  function Shutdown(t: Toml): Option<int> {
    if t.test.Some? then t.test.value.shutdownWait else None
  }

  /** The last file of the list that sets a startup wait. */
  ghost function LastStartup(files: Files, sofar: Option<int>, order: seq<string>): Option<int>
    requires Readable(files, order)
    decreases order
  {
    if order == [] then sofar else LastStartup(files, Or(sofar, Startup(files[order[0]])), order[1..])
  }

  /** The first file of the list that has a test section at all. */
  ghost function FirstSection(files: Files, order: seq<string>): Option<TestSection>
    requires Readable(files, order)
    decreases order
  {
    if order == [] then None
    else if files[order[0]].test.Some? then files[order[0]].test
    else FirstSection(files, order[1..])
  }

  /** The startup wait is the last one set; the shutdown wait is that of the first file with a test section. */
  lemma {:induction false} WaitsOfFold(files: Files, sofar: Toml, order: seq<string>)
    requires Readable(files, order)
    ensures var t := Fold(files, sofar, order);
            && Startup(t) == LastStartup(files, Startup(sofar), order)
            && Shutdown(t) ==
               if sofar.test.Some? then Shutdown(sofar)
               else if FirstSection(files, order).Some? then FirstSection(files, order).value.shutdownWait
               else None
    decreases order
  {
    if order != [] {
      WaitsOfFold(files, Merged(sofar, files[order[0]]), order[1..]);
    }
  }

  /**
   The file that extends should have the last word on the shutdown wait, as it has on the startup wait. It
   does exactly when it sets none, or its bases have no test section, or they set the same.
   */
  lemma ShutdownOverridden(base: Toml, file: Toml)
    ensures Startup(Merged(base, file)) == Or(Startup(base), Startup(file))
    ensures Shutdown(Merged(base, file)) == Or(Shutdown(base), Shutdown(file))
       <==> Shutdown(file).None? || base.test.None? || Shutdown(base) == Shutdown(file)
  {
  }

  /** A file asking for 5 ms on top of a base that only lists a program gets the default of 2000 ms. */
  lemma ShutdownLost()
    ensures var base := GenesisOnly([]);
            var file := Toml(Some(["base"]), Some(TestSection(None, None, None, Some(5))), None);
            var files := map["base" := base, "file" := file];
            var rank := (p: string) => if p == "file" then 1 else 0;
            && Acyclic(files, rank)
            && Resolved(files, rank, "file").Success?
            && Shutdown(Resolved(files, rank, "file").value) == None
  {
    var base := GenesisOnly([]);
    var file := Toml(Some(["base"]), Some(TestSection(None, None, None, Some(5))), None);
    var files := map["base" := base, "file" := file];
    var rank := (p: string) => if p == "file" then 1 else 0;
    assert ["base"][1..] == [];
    assert "base" != "file";
    assert Resolved(files, rank, "base") == Success(base);
    assert ResolvedAll(files, rank, 1, EMPTY, ["base"]) == Success(Merged(EMPTY, base));
  }
}
