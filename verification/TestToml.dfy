/**
 Test.toml files and how they inherit: a file lists the files it extends, and reading it merges them in
 order, each read the same way, before the file itself.
 */
module TestToml {
  import opened Wrappers

  /** A genesis program, an account to load or (with no payload) an account to clone. */
  datatype Entry<T> = Entry(address: string, payload: T)

  type GenesisEntry = Entry<string>
  type AccountEntry = Entry<string>
  type CloneEntry = Entry<()>

  datatype Validator = Validator(
    account: Option<seq<AccountEntry>>,
    bindAddress: Option<string>,
    clones: Option<seq<CloneEntry>>,
    dynamicPortRange: Option<string>,
    faucetPort: Option<nat>,
    faucetSol: Option<string>,
    gossipHost: Option<string>,
    gossipPort: Option<nat>,
    url: Option<string>,
    ledger: Option<string>,
    limitLedgerSize: Option<string>,
    rpcPort: Option<nat>,
    slotsPerEpoch: Option<string>,
    warpSlot: Option<string>)

  datatype TestSection = TestSection(
    genesis: Option<seq<GenesisEntry>>,
    validator: Option<Validator>,
    startupWait: Option<int>,
    shutdownWait: Option<int>)

  datatype Toml = Toml(
    inherits: Option<seq<string>>,
    test: Option<TestSection>,
    scripts: Option<map<string, string>>)

  const EMPTY := Toml(None, None, None)

  // ---------------------------------------------------------------- merging two files

  /** The right value where there is one. */
  function Or<T>(left: Option<T>, right: Option<T>): Option<T> {
    if right.Some? then right else left
  }

  /** Replace the first entry with the same address, or append. */
  function Put<T>(entries: seq<Entry<T>>, e: Entry<T>): (r: seq<Entry<T>>)
    ensures r != []
  {
    if entries == [] then
      [e]
    else if entries[0].address == e.address then
      [e] + entries[1..]
    else
      [entries[0]] + Put(entries[1..], e)
  }

  function Upsert<T>(entries: seq<Entry<T>>, others: seq<Entry<T>>): seq<Entry<T>>
    decreases others
  {
    if others == [] then entries else Upsert(Put(entries, others[0]), others[1..])
  }

  function MergedEntries<T>(left: Option<seq<Entry<T>>>, right: Option<seq<Entry<T>>>): Option<seq<Entry<T>>> {
    if left.Some? && right.Some? then Some(Upsert(left.value, right.value)) else Or(left, right)
  }

  function MergedValidator(left: Validator, right: Validator): Validator {
    Validator(
      MergedEntries(left.account, right.account),
      Or(left.bindAddress, right.bindAddress),
      MergedEntries(left.clones, right.clones),
      Or(left.dynamicPortRange, right.dynamicPortRange),
      Or(left.faucetPort, right.faucetPort),
      Or(left.faucetSol, right.faucetSol),
      Or(left.gossipHost, right.gossipHost),
      Or(left.gossipPort, right.gossipPort),
      Or(left.url, right.url),
      Or(left.ledger, right.ledger),
      Or(left.limitLedgerSize, right.limitLedgerSize),
      Or(left.rpcPort, right.rpcPort),
      Or(left.slotsPerEpoch, right.slotsPerEpoch),
      Or(left.warpSlot, right.warpSlot))
  }

  function MergedValidators(left: Option<Validator>, right: Option<Validator>): Option<Validator> {
    if left.Some? && right.Some? then Some(MergedValidator(left.value, right.value)) else Or(left, right)
  }

  /** Everything favours the right side but the shutdown wait, which is not looked at there. */
  function MergedSection(left: TestSection, right: TestSection): TestSection {
    TestSection(
      MergedEntries(left.genesis, right.genesis),
      MergedValidators(left.validator, right.validator),
      Or(left.startupWait, right.startupWait),
      left.shutdownWait)
  }

  function MergedTest(left: Option<TestSection>, right: Option<TestSection>): Option<TestSection> {
    if left.Some? && right.Some? then Some(MergedSection(left.value, right.value)) else Or(left, right)
  }

  function MergedScripts(left: Option<map<string, string>>, right: Option<map<string, string>>)
    : Option<map<string, string>>
  {
    if left.Some? && right.Some? then Some(left.value + right.value) else Or(left, right)
  }

  function Merged(left: Toml, right: Toml): Toml {
    Toml(left.inherits, MergedTest(left.test, right.test), MergedScripts(left.scripts, right.scripts))
  }

  // ---------------------------------------------------------------- the merge that updates in place

  lemma {:induction false} PutAtFirst<T>(entries: seq<Entry<T>>, e: Entry<T>, i: nat)
    requires i <= |entries|
    requires forall j :: 0 <= j < i ==> entries[j].address != e.address
    requires i < |entries| ==> entries[i].address == e.address
    ensures Put(entries, e) == if i < |entries| then entries[i := e] else entries + [e]
  {
    if i > 0 {
      PutAtFirst(entries[1..], e, i - 1);
      assert entries == [entries[0]] + entries[1..];
      if i < |entries| {
        assert entries[i := e] == [entries[0]] + entries[1..][i - 1 := e];
      }
    } else if entries != [] {
      assert entries[0 := e] == [e] + entries[1..];
    }
  }

  lemma {:induction false} UpsertSnoc<T>(entries: seq<Entry<T>>, others: seq<Entry<T>>, e: Entry<T>)
    ensures Upsert(entries, others + [e]) == Put(Upsert(entries, others), e)
    decreases others
  {
    if others == [] {
      assert [e][1..] == [];
    } else {
      UpsertSnoc(Put(entries, others[0]), others[1..], e);
      assert (others + [e])[1..] == others[1..] + [e];
    }
  }

  /** Iterator::position: the first entry with the address. */
  method Position<T>(entries: seq<Entry<T>>, address: string) returns (i: nat)
    ensures i <= |entries|
    ensures forall j :: 0 <= j < i ==> entries[j].address != address
    ensures i < |entries| ==> entries[i].address == address
  {
    i := 0;
    while i < |entries| && entries[i].address != address
      invariant i <= |entries|
      invariant forall j :: 0 <= j < i ==> entries[j].address != address
    {
      i := i + 1;
    }
  }

  method MergeEntries<T>(mine: seq<Entry<T>>, others: seq<Entry<T>>) returns (entries: seq<Entry<T>>)
    ensures entries == Upsert(mine, others)
  {
    entries := mine;
    for k := 0 to |others|
      invariant entries == Upsert(mine, others[..k])
    {
      var i := Position(entries, others[k].address);
      PutAtFirst(entries, others[k], i);
      UpsertSnoc(mine, others[..k], others[k]);
      assert others[..k + 1] == others[..k] + [others[k]];
      if i < |entries| {
        entries := entries[i := others[k]];
      } else {
        entries := entries + [others[k]];
      }
    }
    assert others[..|others|] == others;
  }

  method MergeOptionalEntries<T>(mine: Option<seq<Entry<T>>>, others: Option<seq<Entry<T>>>)
    returns (entries: Option<seq<Entry<T>>>)
    ensures entries == MergedEntries(mine, others)
  {
    match mine
    case None =>
      entries := others;
    case Some(es) =>
      match others
      case None =>
        entries := mine;
      case Some(os) =>
        var merged := MergeEntries(es, os);
        entries := Some(merged);
  }

  method MergeScripts(mine: map<string, string>, others: map<string, string>) returns (scripts: map<string, string>)
    ensures scripts == mine + others
  {
    scripts := mine;
    var names := others.Keys;
    while names != {}
      invariant names <= others.Keys
      invariant scripts.Keys == mine.Keys + (others.Keys - names)
      invariant forall n :: n in others.Keys - names ==> scripts[n] == others[n]
      invariant forall n :: n in mine.Keys && n !in others.Keys - names ==> scripts[n] == mine[n]
      decreases names
    {
      var name :| name in names;
      scripts := scripts[name := others[name]];
      names := names - {name};
    }
  }

  method MergeValidator(mine: Validator, other: Validator) returns (v: Validator)
    ensures v == MergedValidator(mine, other)
  {
    var account := MergeOptionalEntries(mine.account, other.account);
    var clones := MergeOptionalEntries(mine.clones, other.clones);
    v := Validator(
      account,
      Or(mine.bindAddress, other.bindAddress),
      clones,
      Or(mine.dynamicPortRange, other.dynamicPortRange),
      Or(mine.faucetPort, other.faucetPort),
      Or(mine.faucetSol, other.faucetSol),
      Or(mine.gossipHost, other.gossipHost),
      Or(mine.gossipPort, other.gossipPort),
      Or(mine.url, other.url),
      Or(mine.ledger, other.ledger),
      Or(mine.limitLedgerSize, other.limitLedgerSize),
      Or(mine.rpcPort, other.rpcPort),
      Or(mine.slotsPerEpoch, other.slotsPerEpoch),
      Or(mine.warpSlot, other.warpSlot));
  }

  method MergeSection(mine: TestSection, other: TestSection) returns (t: TestSection)
    ensures t == MergedSection(mine, other)
  {
    t := mine;
    if other.startupWait.Some? {
      t := t.(startupWait := other.startupWait);
    }
    if other.genesis.Some? {
      match t.genesis
      case None =>
        t := t.(genesis := other.genesis);
      case Some(entries) =>
        var merged := MergeEntries(entries, other.genesis.value);
        t := t.(genesis := Some(merged));
    }
    if t.validator.None? {
      t := t.(validator := other.validator);
    } else if other.validator.Some? {
      var merged := MergeValidator(t.validator.value, other.validator.value);
      t := t.(validator := Some(merged));
    }
  }

  /** The file being built up while its bases are read. */
  class Accumulator {
    var inherits: Option<seq<string>>
    var test: Option<TestSection>
    var scripts: Option<map<string, string>>

    ghost function Value(): Toml
      reads this
    {
      Toml(inherits, test, scripts)
    }

    constructor ()
      ensures Value() == EMPTY
    {
      inherits, test, scripts := None, None, None;
    }

    method Merge(other: Toml)
      modifies this
      ensures Value() == Merged(old(Value()), other)
    {
      if scripts.None? {
        scripts := other.scripts;
      } else if other.scripts.Some? {
        var merged := MergeScripts(scripts.value, other.scripts.value);
        scripts := Some(merged);
      }
      if test.None? {
        test := other.test;
      } else if other.test.Some? {
        var merged := MergeSection(test.value, other.test.value);
        test := Some(merged);
      }
    }

    method Take() returns (t: Toml)
      ensures t == Value()
    {
      t := Toml(inherits, test, scripts);
    }
  }

  // ---------------------------------------------------------------- reading a file with its bases

  /** The readable files, by path; every other path is an error. */
  type Files = map<string, Toml>

  function Bases(t: Toml): seq<string> {
    if t.inherits.Some? then t.inherits.value else []
  }

  /** No file extends itself, directly or through others. */
  ghost predicate Acyclic(files: Files, rank: string -> nat) {
    forall p, i :: p in files && 0 <= i < |Bases(files[p])| ==> rank(Bases(files[p])[i]) < rank(p)
  }

  ghost predicate Below(bases: seq<string>, rank: string -> nat, top: nat) {
    forall i :: 0 <= i < |bases| ==> rank(bases[i]) < top
  }

  /** What reading a path gives, or the path that could not be read. */
  ghost function Resolved(files: Files, rank: string -> nat, path: string): Result<Toml, string>
    requires Acyclic(files, rank)
    decreases rank(path) + 1, 0
  {
    if path !in files then
      Failure(path)
    else
      var inherited :- ResolvedAll(files, rank, rank(path), EMPTY, Bases(files[path]));
      Success(Merged(inherited, files[path]))
  }

  ghost function ResolvedAll(files: Files, rank: string -> nat, top: nat, sofar: Toml, bases: seq<string>)
    : Result<Toml, string>
    requires Acyclic(files, rank) && Below(bases, rank, top)
    decreases top, |bases|
  {
    if bases == [] then
      Success(sofar)
    else
      var base :- Resolved(files, rank, bases[0]);
      ResolvedAll(files, rank, top, Merged(sofar, base), bases[1..])
  }

  lemma {:induction false} ResolvedSnoc(files: Files, rank: string -> nat, top: nat, sofar: Toml, bases: seq<string>,
                                        b: string)
    requires Acyclic(files, rank) && Below(bases + [b], rank, top) && Below(bases, rank, top) && rank(b) < top
    ensures ResolvedAll(files, rank, top, sofar, bases + [b]) ==
            match ResolvedAll(files, rank, top, sofar, bases)
            case Failure(p) => Failure(p)
            case Success(t) =>
              match Resolved(files, rank, b)
              case Failure(p) => Failure(p)
              case Success(base) => Success(Merged(t, base))
    decreases |bases|
  {
    hide Acyclic;
    if bases == [] {
      assert ([b])[1..] == [];
    } else {
      assert (bases + [b])[0] == bases[0] && (bases + [b])[1..] == bases[1..] + [b];
      var first := Resolved(files, rank, bases[0]);
      if first.Success? {
        ResolvedSnoc(files, rank, top, Merged(sofar, first.value), bases[1..], b);
      }
    }
  }

  lemma {:induction false} ResolvedStops(files: Files, rank: string -> nat, top: nat, sofar: Toml, bases: seq<string>,
                                         k: nat)
    requires Acyclic(files, rank) && Below(bases, rank, top) && k <= |bases| && Below(bases[..k], rank, top)
    requires ResolvedAll(files, rank, top, sofar, bases[..k]).Failure?
    ensures ResolvedAll(files, rank, top, sofar, bases) == ResolvedAll(files, rank, top, sofar, bases[..k])
    decreases k
  {
    hide Acyclic;
    if k > 0 {
      assert bases[..k][0] == bases[0] && bases[..k][1..] == bases[1..][..k - 1];
      var first := Resolved(files, rank, bases[0]);
      if first.Success? {
        ResolvedStops(files, rank, top, Merged(sofar, first.value), bases[1..], k - 1);
      }
    }
  }

  /** One more base: its own failure is the failure of them all, otherwise it is merged. */
  lemma ResolvedNext(files: Files, rank: string -> nat, top: nat, bases: seq<string>, i: nat)
    requires Acyclic(files, rank) && Below(bases, rank, top) && i < |bases| && Below(bases[..i], rank, top)
    requires ResolvedAll(files, rank, top, EMPTY, bases[..i]).Success?
    ensures Below(bases[..i + 1], rank, top)
    ensures match Resolved(files, rank, bases[i])
            case Failure(p) => ResolvedAll(files, rank, top, EMPTY, bases) == Failure(p)
            case Success(base) =>
              ResolvedAll(files, rank, top, EMPTY, bases[..i + 1]) ==
              Success(Merged(ResolvedAll(files, rank, top, EMPTY, bases[..i]).value, base))
  {
    hide Resolved, ResolvedAll, Merged, Acyclic;
    assert bases[..i + 1] == bases[..i] + [bases[i]];
    ResolvedSnoc(files, rank, top, EMPTY, bases[..i], bases[i]);
    if Resolved(files, rank, bases[i]).Failure? {
      ResolvedStops(files, rank, top, EMPTY, bases, i + 1);
    }
  }

  method FromPath(files: Files, ghost rank: string -> nat, path: string) returns (r: Result<Toml, string>)
    requires Acyclic(files, rank)
    ensures r == Resolved(files, rank, path)
    decreases rank(path)
  {
    if path !in files {
      return Failure(path);
    }
    var parsed := files[path];
    var current := new Accumulator();
    if parsed.inherits.Some? {
      var bases := parsed.inherits.value;
      assert bases == Bases(parsed);
      ghost var top := rank(path);
      for i := 0 to |bases|
        invariant Below(bases[..i], rank, top)
        invariant ResolvedAll(files, rank, top, EMPTY, bases[..i]) == Success(current.Value())
        invariant fresh(current)
      {
        var base := FromPath(files, rank, bases[i]);
        hide Resolved, ResolvedAll, Merged, Acyclic;
        ResolvedNext(files, rank, top, bases, i);
        if base.Failure? {
          return base;
        }
        current.Merge(base.value);
      }
      assert bases[..|bases|] == bases;
    }
    current.Merge(parsed);
    var value := current.Take();
    return Success(value);
  }
}
