/**
 The shared market cache. Memory makes the sharing explicit: a market entry holds indices of cells, as the
 Rust code holds Arcs, so copying an entry shares its cells and only allocation adds new ones.
 */
module Capsule {
  import opened Wrappers
  import opened Lending
  import opened Refresh

  /** What an Arc points to. */
  datatype Cell =
    | ObligationCell(obligation: Enhanced)
    | ReservesCell(reserves: map<Pubkey, Reserve>)
    | OraclesCell(oracles: map<Pubkey, OracleData>)

  type Heap = seq<Cell>

  datatype MarketData = MarketData(oracleData: nat, obligations: map<Pubkey, nat>, reserves: nat)

  /** The cache entry of one market. */
  datatype Retriever = Retriever(inner: MarketData, lendingMarket: string, initialized: bool)

  datatype Memory = Memory(markets: map<string, Retriever>, heap: Heap)

  // ---------------------------------------------------------------- well-formed entries and their meaning

  ghost predicate ObligationAt(heap: Heap, cell: nat, key: Pubkey) {
    cell < |heap| && heap[cell].ObligationCell? && heap[cell].obligation.pubkey == key
  }

  /** The cells have the right kinds and every obligation sits under its own account key. */
  ghost predicate WellFormed(heap: Heap, d: MarketData) {
    && d.oracleData < |heap| && heap[d.oracleData].OraclesCell?
    && d.reserves < |heap| && heap[d.reserves].ReservesCell?
    && forall k :: k in d.obligations ==> ObligationAt(heap, d.obligations[k], k)
  }

  ghost predicate MemoryWellFormed(m: Memory) {
    forall name :: name in m.markets ==> WellFormed(m.heap, m.markets[name].inner)
  }

  /** What a market entry says once its cells are read. */
  datatype MarketView = MarketView(initialized: bool, obligations: map<Pubkey, Enhanced>, book: Book)

  ghost function ObligationsOf(heap: Heap, d: MarketData): map<Pubkey, Enhanced>
    requires WellFormed(heap, d)
  {
    map k | k in d.obligations :: heap[d.obligations[k]].obligation
  }

  ghost function BookOf(heap: Heap, d: MarketData): Book
    requires WellFormed(heap, d)
  {
    Book(heap[d.reserves].reserves, heap[d.oracleData].oracles)
  }

  ghost function ViewOf(heap: Heap, r: Retriever): MarketView
    requires WellFormed(heap, r.inner)
  {
    MarketView(r.initialized, ObligationsOf(heap, r.inner), BookOf(heap, r.inner))
  }

  ghost function Views(m: Memory): map<string, MarketView>
    requires MemoryWellFormed(m)
  {
    map name | name in m.markets :: ViewOf(m.heap, m.markets[name])
  }

  /** Allocation changes neither the shape nor the meaning of an existing entry. */
  lemma ViewStable(heap: Heap, heap': Heap, d: MarketData)
    requires heap <= heap' && WellFormed(heap, d)
    ensures WellFormed(heap', d)
    ensures ObligationsOf(heap', d) == ObligationsOf(heap, d) && BookOf(heap', d) == BookOf(heap, d)
  {
    forall k | k in d.obligations
      ensures ObligationAt(heap', d.obligations[k], k)
    {
      assert ObligationAt(heap, d.obligations[k], k);
    }
    assert forall k :: k in d.obligations ==> ObligationAt(heap, d.obligations[k], k);
  }

  // ---------------------------------------------------------------- capsule operations

  /** update_initially: an empty, uninitialised entry with fresh cells. */
  function Register(m: Memory, market: string): Memory {
    var n := |m.heap|;
    Memory(m.markets[market := Retriever(MarketData(n, map[], n + 1), market, false)],
           m.heap + [OraclesCell(map[]), ReservesCell(map[])])
  }

  /** update_market_data_for: replace the whole data of a known market; ignore an unknown one. */
  function WithMarketData(m: Memory, market: string, data: MarketData): Memory {
    if market in m.markets then
      m.(markets := m.markets[market := m.markets[market].(inner := data, initialized := true)])
    else m
  }

  /** update_distinct_obligation_for: a fresh cell replaces the entry for the obligation's key. */
  function WithObligation(m: Memory, market: string, obligation: Enhanced): Memory {
    if market in m.markets then
      var r := m.markets[market];
      var obligations := r.inner.obligations[obligation.pubkey := |m.heap|];
      Memory(m.markets[market := r.(inner := r.inner.(obligations := obligations))],
             m.heap + [ObligationCell(obligation)])
    else m
  }

  // ---------------------------------------------------------------- fetching

  /** A listing of program accounts: an error reads as no accounts, one that does not unpack panics. */
  datatype Listing<T> = Unavailable | Undecodable | Listed(value: T)

  /** The replies to one market's fetch, fixed for a round. */
  datatype FetchReplies = FetchReplies(
    listing: Listing<seq<Enhanced>>,
    accounts: map<Pubkey, Obligation>,           // an account missing here cannot be read or unpacked: panic
    reserves: Listing<map<Pubkey, Reserve>>,
    feeds: Option<map<Pubkey, OracleData>>)      // None when reading some price feed panics

  function ListedOr<T>(listing: Listing<T>, empty: T): T
    requires !listing.Undecodable?
  {
    if listing.Listed? then listing.value else empty
  }

  /** The reserves and the feeds can all be read. */
  predicate BookAnswered(replies: FetchReplies) {
    !replies.reserves.Undecodable? && replies.feeds.Some?
  }

  function FetchedBook(replies: FetchReplies): Book
    requires BookAnswered(replies)
  {
    Book(ListedOr(replies.reserves, map[]), replies.feeds.value)
  }

  /** No reply makes the fetch of an entry with these keys panic. */
  predicate Answered(replies: FetchReplies, initialized: bool, keys: set<Pubkey>) {
    BookAnswered(replies) && if initialized then keys <= replies.accounts.Keys else !replies.listing.Undecodable?
  }

  /** Insert fetched obligations one by one, each behind a new cell. */
  function InsertAll(heap: Heap, entries: seq<Enhanced>): (Heap, map<Pubkey, nat>) {
    if entries == [] then (heap, map[])
    else
      var (h, obligations) := InsertAll(heap, entries[..|entries| - 1]);
      var last := entries[|entries| - 1];
      (h + [ObligationCell(last)], obligations[last.pubkey := |h|])
  }

  /** The obligations a list of fetched accounts amounts to: the last one for each key. */
  function Collected(entries: seq<Enhanced>): map<Pubkey, Enhanced> {
    if entries == [] then map[]
    else Collected(entries[..|entries| - 1])[entries[|entries| - 1].pubkey := entries[|entries| - 1]]
  }

  lemma {:induction false} InsertAllMeans(heap: Heap, entries: seq<Enhanced>)
    ensures var (h, obligations) := InsertAll(heap, entries);
            && heap <= h
            && obligations.Keys == Collected(entries).Keys
            && forall k :: k in obligations ==>
                 ObligationAt(h, obligations[k], k) && h[obligations[k]].obligation == Collected(entries)[k]
  {
    if entries != [] {
      InsertAllMeans(heap, entries[..|entries| - 1]);
    }
  }

  /** The accounts of the given keys, in the order their tasks finish. */
  function AccountsInOrder(order: seq<Pubkey>, accounts: map<Pubkey, Obligation>): seq<Enhanced>
    requires forall i :: 0 <= i < |order| ==> order[i] in accounts
  {
    seq(|order|, i requires 0 <= i < |order| => Enhanced(accounts[order[i]], order[i]))
  }

  ghost function AccountsFor(keys: set<Pubkey>, accounts: map<Pubkey, Obligation>): map<Pubkey, Enhanced>
    requires keys <= accounts.Keys
  {
    map k | k in keys :: Enhanced(accounts[k], k)
  }

  /** Whatever order the tasks finish in, an update collects exactly the accounts of its keys. */
  lemma {:induction false} CollectedAccounts(order: seq<Pubkey>, accounts: map<Pubkey, Obligation>)
    requires forall i :: 0 <= i < |order| ==> order[i] in accounts
    ensures Collected(AccountsInOrder(order, accounts)) == AccountsFor((set k | k in order), accounts)
  {
    if order != [] {
      var n := |order| - 1;
      var entries := AccountsInOrder(order, accounts);
      CollectedAccounts(order[..n], accounts);
      assert entries[..n] == AccountsInOrder(order[..n], accounts);
      assert order == order[..n] + [order[n]];
    }
  }

  /** A fetch reads the market's own entry in its clone of the capsule and panics unless it is fully answered. */
  predicate CanFetch(before: Retriever, replies: FetchReplies, order: seq<Pubkey>) {
    && BookAnswered(replies)
    && if before.initialized then
         && (set k | k in order) == before.inner.obligations.Keys
         && |order| == |before.inner.obligations|
         && forall i :: 0 <= i < |order| ==> order[i] in replies.accounts
       else !replies.listing.Undecodable?
  }

  function Fetch(heap: Heap, before: Retriever, replies: FetchReplies, order: seq<Pubkey>): (Heap, MarketData)
    requires CanFetch(before, replies, order)
  {
    var entries :=
      if before.initialized then AccountsInOrder(order, replies.accounts) else ListedOr(replies.listing, []);
    var (h, obligations) := InsertAll(heap, entries);
    var book := FetchedBook(replies);
    (h + [OraclesCell(book.oracles), ReservesCell(book.reserves)], MarketData(|h|, obligations, |h| + 1))
  }

  /** The obligations a fetch yields: a listing before the first persisted fetch, then the known keys' accounts. */
  ghost function FetchedObligations(replies: FetchReplies, initialized: bool, keys: set<Pubkey>): map<Pubkey, Enhanced>
    requires Answered(replies, initialized, keys)
  {
    if initialized then AccountsFor(keys, replies.accounts) else Collected(ListedOr(replies.listing, []))
  }

  /** e is the last entry of a list under its key. */
  ghost predicate LastUnder(entries: seq<Enhanced>, k: Pubkey, e: Enhanced) {
    exists i :: 0 <= i < |entries| && entries[i] == e && e.pubkey == k
      && forall j :: i < j < |entries| ==> entries[j].pubkey != k
  }

  ghost predicate Mentions(entries: seq<Enhanced>, k: Pubkey) {
    exists i :: 0 <= i < |entries| && entries[i].pubkey == k
  }

  /**
   What the replies say a market is: the accounts read again for the keys it had, or everything listed for
   a market read for the first time; the reserves listed, none if they could not be; and the feeds.
   */
  ghost predicate FromReplies(obligations: map<Pubkey, Enhanced>, book: Book, replies: FetchReplies,
                              initialized: bool, keys: set<Pubkey>) {
    && (initialized ==>
          && obligations.Keys == keys
          && forall k :: k in keys ==> k in replies.accounts && obligations[k] == Enhanced(replies.accounts[k], k))
    && (!initialized && replies.listing.Listed? ==>
          && (forall k :: k in obligations <==> Mentions(replies.listing.value, k))
          && (forall k :: k in obligations ==> LastUnder(replies.listing.value, k, obligations[k])))
    && (!initialized && replies.listing.Unavailable? ==> obligations == map[])
    && (replies.reserves.Listed? ==> book.reserves == replies.reserves.value)
    && (replies.reserves.Unavailable? ==> book.reserves == map[])
    && replies.feeds == Some(book.oracles)
  }

  lemma MentionsSnoc(front: seq<Enhanced>, last: Enhanced, k: Pubkey)
    ensures Mentions(front + [last], k) <==> Mentions(front, k) || last.pubkey == k
  {
    var entries := front + [last];
    assert entries[|front|] == last;
    if Mentions(front, k) {
      var i :| 0 <= i < |front| && front[i].pubkey == k;
      assert entries[i] == front[i];
    }
  }

  lemma LastUnderSnoc(front: seq<Enhanced>, last: Enhanced, k: Pubkey, e: Enhanced)
    requires if last.pubkey == k then e == last else LastUnder(front, k, e)
    ensures LastUnder(front + [last], k, e)
  {
    var entries := front + [last];
    if last.pubkey == k {
      assert entries[|front|] == e;
    } else {
      var i :| 0 <= i < |front| && front[i] == e && e.pubkey == k && forall j :: i < j < |front| ==> front[j].pubkey != k;
      assert entries[i] == e;
    }
  }

  lemma {:induction false} CollectedMeans(entries: seq<Enhanced>)
    ensures forall k :: k in Collected(entries) <==> Mentions(entries, k)
    ensures forall k :: k in Collected(entries) ==> LastUnder(entries, k, Collected(entries)[k])
  {
    if entries != [] {
      var n := |entries| - 1;
      var front, last := entries[..n], entries[n];
      CollectedMeans(front);
      assert entries == front + [last];
      assert Collected(entries) == Collected(front)[last.pubkey := last];
      hide Collected, Mentions, LastUnder;
      forall k
        ensures k in Collected(entries) <==> Mentions(entries, k)
      {
        MentionsSnoc(front, last, k);
      }
      forall k | k in Collected(entries)
        ensures LastUnder(entries, k, Collected(entries)[k])
      {
        LastUnderSnoc(front, last, k, Collected(entries)[k]);
      }
    }
  }

  /** What a fetch means, in terms of its replies alone. */
  lemma FetchedFromReplies(replies: FetchReplies, initialized: bool, keys: set<Pubkey>)
    requires Answered(replies, initialized, keys)
    ensures FromReplies(FetchedObligations(replies, initialized, keys), FetchedBook(replies), replies, initialized, keys)
  {
    hide Mentions, LastUnder, Collected;
    if !initialized && replies.listing.Listed? {
      CollectedMeans(replies.listing.value);
    } else if !initialized {
      NothingCollected();
    }
  }

  lemma NothingCollected()
    ensures Collected([]) == map[]
  {
  }

  /** The cells a fetch allocates are what its data means. */
  lemma InsertedData(heap: Heap, entries: seq<Enhanced>, oracles: map<Pubkey, OracleData>, reserves: map<Pubkey, Reserve>)
    ensures var (h, obligations) := InsertAll(heap, entries);
            var h' := h + [OraclesCell(oracles), ReservesCell(reserves)];
            var data := MarketData(|h|, obligations, |h| + 1);
            && heap <= h' && WellFormed(h', data)
            && ObligationsOf(h', data) == Collected(entries)
            && BookOf(h', data) == Book(reserves, oracles)
  {
    InsertAllMeans(heap, entries);
    var (h, obligations) := InsertAll(heap, entries);
    var h' := h + [OraclesCell(oracles), ReservesCell(reserves)];
    forall k | k in obligations
      ensures ObligationAt(h', obligations[k], k) && h'[obligations[k]].obligation == Collected(entries)[k]
    {
      assert ObligationAt(h, obligations[k], k);
    }
  }

  lemma FetchMeans(heap: Heap, before: Retriever, replies: FetchReplies, order: seq<Pubkey>)
    requires CanFetch(before, replies, order)
    ensures var (h, data) := Fetch(heap, before, replies, order);
            && heap <= h && WellFormed(h, data)
            && Answered(replies, before.initialized, before.inner.obligations.Keys)
            && ObligationsOf(h, data) == FetchedObligations(replies, before.initialized, before.inner.obligations.Keys)
            && BookOf(h, data) == FetchedBook(replies)
            && FromReplies(ObligationsOf(h, data), BookOf(h, data), replies,
                           before.initialized, before.inner.obligations.Keys)
  {
    var entries :=
      if before.initialized then AccountsInOrder(order, replies.accounts) else ListedOr(replies.listing, []);
    hide InsertAll, Collected, WellFormed, ObligationsOf, BookOf, FromReplies;
    InsertedData(heap, entries, FetchedBook(replies).oracles, FetchedBook(replies).reserves);
    if before.initialized {
      CollectedAccounts(order, replies.accounts);
      assert forall k :: k in before.inner.obligations ==> k in order;
    }
    FetchedFromReplies(replies, before.initialized, before.inner.obligations.Keys);
  }
}
