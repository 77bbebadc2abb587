/**
 What a merged file says, setting by setting: over any list of files, each setting has the value of the last
 file that gives it one.
 */
module TestTomlSettings {
  import opened Wrappers
  import opened TestToml
  import opened TestTomlFacts

  /** Everything a file can set, down to single scripts and list entries; the shutdown wait is apart. */
  datatype Setting =
    | StartupWait
    | Script(name: string)
    | GenesisProgram(address: string)
    | AccountFile(address: string)
    | Clone(address: string)
    | BindAddress
    | DynamicPortRange
    | FaucetPort
    | FaucetSol
    | GossipHost
    | GossipPort
    | Url
    | Ledger
    | LimitLedgerSize
    | RpcPort
    | SlotsPerEpoch
    | WarpSlot

  datatype Value = Text(text: string) | Number(number: int) | Present

  function TextOf(o: Option<string>): Option<Value> {
    if o.Some? then Some(Text(o.value)) else None
  }

  function NumberOf(o: Option<int>): Option<Value> {
    if o.Some? then Some(Number(o.value)) else None
  }

  /** The first entry of a list with an address, if there is such a list and entry. */
  function EntryText(entries: Option<seq<Entry<string>>>, address: string): Option<Value> {
    if entries.Some? then TextOf(Find(entries.value, address)) else None
  }

  function InValidator(v: Validator, s: Setting): Option<Value> {
    match s
    case AccountFile(a) => EntryText(v.account, a)
    case Clone(a) => if v.clones.Some? && Find(v.clones.value, a).Some? then Some(Present) else None
    case BindAddress => TextOf(v.bindAddress)
    case DynamicPortRange => TextOf(v.dynamicPortRange)
    case FaucetPort => if v.faucetPort.Some? then Some(Number(v.faucetPort.value)) else None
    case FaucetSol => TextOf(v.faucetSol)
    case GossipHost => TextOf(v.gossipHost)
    case GossipPort => if v.gossipPort.Some? then Some(Number(v.gossipPort.value)) else None
    case Url => TextOf(v.url)
    case Ledger => TextOf(v.ledger)
    case LimitLedgerSize => TextOf(v.limitLedgerSize)
    case RpcPort => if v.rpcPort.Some? then Some(Number(v.rpcPort.value)) else None
    case SlotsPerEpoch => TextOf(v.slotsPerEpoch)
    case WarpSlot => TextOf(v.warpSlot)
    case _ => None
  }

  function InSection(t: TestSection, s: Setting): Option<Value> {
    match s
    case StartupWait => NumberOf(t.startupWait)
    case GenesisProgram(a) => EntryText(t.genesis, a)
    case _ => if t.validator.Some? then InValidator(t.validator.value, s) else None
  }

  /** The value a file gives a setting. */
  function Get(t: Toml, s: Setting): Option<Value> {
    match s
    case Script(name) => if t.scripts.Some? && name in t.scripts.value then Some(Text(t.scripts.value[name])) else None
    case _ => if t.test.Some? then InSection(t.test.value, s) else None
  }

  // ---------------------------------------------------------------- one merge

  lemma {:induction false} FindLastUnique<T>(entries: seq<Entry<T>>, address: string)
    requires Unique(entries)
    ensures FindLast(entries, address) == Find(entries, address)
  {
    if entries != [] {
      UniqueHeadTail(entries);
      FindLastUnique(entries[1..], address);
      FindLastSome(entries[1..], address);
    }
  }

  lemma {:induction false} FindSome<T>(entries: seq<Entry<T>>, address: string)
    ensures Find(entries, address).Some? <==> Has(entries, address)
  {
    if entries != [] {
      FindSome(entries[1..], address);
      HasHeadTail(entries, address);
    }
  }

  lemma EntryOverridden(x: Option<seq<Entry<string>>>, y: Option<seq<Entry<string>>>, address: string)
    requires UniqueEntries(y)
    ensures EntryText(MergedEntries(x, y), address) ==
            if EntryText(y, address).Some? then EntryText(y, address) else EntryText(x, address)
  {
    if x.Some? && y.Some? {
      FindUpsert(x.value, y.value, address);
      FindLastUnique(y.value, address);
    }
  }

  lemma CloneKept(x: Validator, y: Validator, address: string)
    ensures InValidator(MergedValidator(x, y), Clone(address)) ==
            if InValidator(y, Clone(address)).Some? then Some(Present) else InValidator(x, Clone(address))
  {
    if x.clones.Some? && y.clones.Some? {
      FindUpsert(x.clones.value, y.clones.value, address);
      FindSome(y.clones.value, address);
      FindLastSome(y.clones.value, address);
    }
  }

  lemma ValidatorOverridden(x: Validator, y: Validator, s: Setting)
    requires UniqueEntries(y.account)
    ensures InValidator(MergedValidator(x, y), s) ==
            if InValidator(y, s).Some? then InValidator(y, s) else InValidator(x, s)
  {
    hide MergedEntries, EntryText, UniqueEntries;
    if s.AccountFile? {
      EntryOverridden(x.account, y.account, s.address);
    } else if s.Clone? {
      CloneKept(x, y, s.address);
    }
  }

  lemma SectionOverridden(x: TestSection, y: TestSection, s: Setting)
    requires UniqueEntries(y.genesis) && UniqueAccounts(y.validator)
    ensures InSection(MergedSection(x, y), s) ==
            if InSection(y, s).Some? then InSection(y, s) else InSection(x, s)
  {
    hide InValidator, MergedValidator, MergedEntries, EntryText, UniqueEntries;
    if s.GenesisProgram? {
      EntryOverridden(x.genesis, y.genesis, s.address);
    } else if x.validator.Some? && y.validator.Some? {
      ValidatorOverridden(x.validator.value, y.validator.value, s);
    }
  }

  /** Every setting is the right file's where it gives one, and the left file's otherwise. */
  lemma MergeOverrides(x: Toml, y: Toml, s: Setting)
    requires UniqueAddresses(y)
    ensures Get(Merged(x, y), s) == if Get(y, s).Some? then Get(y, s) else Get(x, s)
    ensures Merged(x, y).inherits == x.inherits
  {
    hide InSection, MergedSection, UniqueEntries, UniqueAccounts;
    if x.test.Some? && y.test.Some? {
      SectionOverridden(x.test.value, y.test.value, s);
    }
  }

  // ---------------------------------------------------------------- many merges

  /** The value of the last file of a list that gives the setting one. */
  ghost function LastGiven(files: Files, order: seq<string>, s: Setting): Option<Value>
    requires Readable(files, order)
  {
    if order == [] then None
    else
      var last := files[order[|order| - 1]];
      if Get(last, s).Some? then Get(last, s) else LastGiven(files, order[..|order| - 1], s)
  }

  lemma {:induction false} FoldGives(files: Files, order: seq<string>, s: Setting)
    requires AllUnique(files) && Readable(files, order)
    ensures Get(Fold(files, EMPTY, order), s) == LastGiven(files, order, s)
  {
    if order != [] {
      var n := |order| - 1;
      var front, last := order[..n], order[n];
      assert order == front + [last];
      FoldGives(files, front, s);
      hide Get, Merged, UniqueAddresses;
      FoldAppend(files, EMPTY, front, [last]);
      FoldOne(files, Fold(files, EMPTY, front), last);
      MergeOverrides(Fold(files, EMPTY, front), files[last], s);
    }
  }

  /**
   Reading a file gives every setting the value of the last file, in post-order, that gives it one; its own
   value comes first of all, being last in that order.
   */
  lemma ResolvedGives(files: Files, rank: string -> nat, path: string, s: Setting)
    requires Acyclic(files, rank) && AllUnique(files) && Resolved(files, rank, path).Success?
    ensures Readable(files, PostOrder(files, rank, path)) && path in files
    ensures var t := Resolved(files, rank, path).value;
            && Get(t, s) == LastGiven(files, PostOrder(files, rank, path), s)
            && (Get(files[path], s).Some? ==> Get(t, s) == Get(files[path], s))
  {
    hide Get, Merged, UniqueAddresses;
    Flattening(files, rank, path);
    FoldGives(files, PostOrder(files, rank, path), s);
  }

  /** Of two bases that give a setting, the one named later wins, unless the file itself gives it. */
  lemma LaterBaseWins(files: Files, rank: string -> nat, path: string, i: nat, s: Setting)
    requires Acyclic(files, rank) && AllUnique(files) && Resolved(files, rank, path).Success?
    requires path in files && i < |Bases(files[path])| && Get(files[path], s) == None
    requires Resolved(files, rank, Bases(files[path])[i]).Success?
    requires Get(Resolved(files, rank, Bases(files[path])[i]).value, s).Some?
    requires forall j :: i < j < |Bases(files[path])| ==>
               Resolved(files, rank, Bases(files[path])[j]).Success?
               && Get(Resolved(files, rank, Bases(files[path])[j]).value, s) == None
    ensures Get(Resolved(files, rank, path).value, s) == Get(Resolved(files, rank, Bases(files[path])[i]).value, s)
  {
    hide Get, Merged, UniqueAddresses;
    var bases := Bases(files[path]);
    MergeOverrides(ResolvedAll(files, rank, rank(path), EMPTY, bases).value, files[path], s);
    BasesGive(files, rank, rank(path), EMPTY, bases, i, s);
  }

  lemma {:induction false} BasesGive(files: Files, rank: string -> nat, top: nat, sofar: Toml, bases: seq<string>, i: nat,
                                     s: Setting)
    requires Acyclic(files, rank) && AllUnique(files) && Below(bases, rank, top)
    requires ResolvedAll(files, rank, top, sofar, bases).Success? && i < |bases|
    requires Resolved(files, rank, bases[i]).Success? && Get(Resolved(files, rank, bases[i]).value, s).Some?
    requires forall j :: i < j < |bases| ==>
               Resolved(files, rank, bases[j]).Success? && Get(Resolved(files, rank, bases[j]).value, s) == None
    ensures Get(ResolvedAll(files, rank, top, sofar, bases).value, s) == Get(Resolved(files, rank, bases[i]).value, s)
    decreases |bases|
  {
    hide Get, Merged, UniqueAddresses, Acyclic, Resolved;
    var first := Resolved(files, rank, bases[0]).value;
    ResolvedIsUnique(files, rank, bases[0]);
    MergeOverrides(sofar, first, s);
    if i > 0 {
      BasesGive(files, rank, top, Merged(sofar, first), bases[1..], i - 1, s);
    } else {
      RestKeeps(files, rank, top, Merged(sofar, first), bases[1..], s);
    }
  }

  lemma {:induction false} RestKeeps(files: Files, rank: string -> nat, top: nat, sofar: Toml, bases: seq<string>, s: Setting)
    requires Acyclic(files, rank) && AllUnique(files) && Below(bases, rank, top)
    requires ResolvedAll(files, rank, top, sofar, bases).Success?
    requires forall j :: 0 <= j < |bases| ==>
               Resolved(files, rank, bases[j]).Success? && Get(Resolved(files, rank, bases[j]).value, s) == None
    ensures Get(ResolvedAll(files, rank, top, sofar, bases).value, s) == Get(sofar, s)
    decreases |bases|
  {
    hide Get, Merged, UniqueAddresses, Acyclic, Resolved;
    if bases != [] {
      var first := Resolved(files, rank, bases[0]).value;
      ResolvedIsUnique(files, rank, bases[0]);
      MergeOverrides(sofar, first, s);
      RestKeeps(files, rank, top, Merged(sofar, first), bases[1..], s);
    }
  }
}
