/**
 The aggregator's history ring: rows in a fixed array, the newest at insertion_idx, unused rows all zero.
 lower_bound finds the latest row at or before a timestamp with one or two binary searches.
 */
module HistoryBuffer {
  import opened Wrappers

  datatype SwitchboardDecimal = SwitchboardDecimal(mantissa: int, scale: nat)

  datatype Row = Row(timestamp: int, value: SwitchboardDecimal)

  datatype Buffer = Buffer(insertionIdx: nat, rows: seq<Row>)

  const ZERO_ROW: Row := Row(0, SwitchboardDecimal(0, 0))

  // ---------------------------------------------------------------- the search

  /** The halving loop of a lower-bound search over rows[base..base + size]. */
  function Narrow(rows: seq<Row>, timestamp: int, base: nat, size: nat): nat
    requires 1 <= size && base + size <= |rows|
    decreases size
  {
    if size == 1 then base
    else
      var half := size / 2;
      var mid := base + half;
      Narrow(rows, timestamp, if rows[mid].timestamp < timestamp then mid else base, size - half)
  }

  /** The first index whose row is not before the timestamp, in a sorted slice. */
  function LowerBoundBy(rows: seq<Row>, timestamp: int): nat {
    if rows == [] then 0
    else
      NarrowInRange(rows, timestamp, 0, |rows|);
      var base := Narrow(rows, timestamp, 0, |rows|);
      if rows[base].timestamp < timestamp then base + 1 else base
  }

  lemma {:induction false} NarrowInRange(rows: seq<Row>, timestamp: int, base: nat, size: nat)
    requires 1 <= size && base + size <= |rows|
    ensures base <= Narrow(rows, timestamp, base, size) < base + size
    decreases size
  {
    if size > 1 {
      var half := size / 2;
      var mid := base + half;
      NarrowInRange(rows, timestamp, if rows[mid].timestamp < timestamp then mid else base, size - half);
    }
  }

  /** The latest row at or before a timestamp; indexing past the rows panics. */
  function LowerBound(b: Buffer, timestamp: int): Option<Row>
    requires b.insertionIdx < |b.rows|
  {
    if b.rows[b.insertionIdx].timestamp == 0 then None
    else
      var lower := b.rows[..b.insertionIdx + 1];
      var lahr := LowerBoundBy(lower, timestamp);
      LowerBoundByInRange(lower, timestamp);
      if lahr < |lower| && lower[lahr].timestamp == timestamp then Some(lower[lahr])
      else if lahr != 0 then Some(lower[lahr - 1])
      else if b.insertionIdx + 1 < |b.rows| && b.rows[b.insertionIdx + 1].timestamp != 0 then
        var upper := b.rows[b.insertionIdx + 1..];
        var uahr := LowerBoundBy(upper, timestamp);
        LowerBoundByInRange(upper, timestamp);
        if uahr < |upper| && upper[uahr].timestamp == timestamp then Some(upper[uahr])
        else if uahr != 0 then Some(upper[uahr - 1])
        else None
      else None
  }

  lemma LowerBoundByInRange(rows: seq<Row>, timestamp: int)
    ensures LowerBoundBy(rows, timestamp) <= |rows|
  {
    if rows != [] {
      NarrowInRange(rows, timestamp, 0, |rows|);
    }
  }

  // ---------------------------------------------------------------- the writer

  predicate Chronological(rows: seq<Row>) {
    forall i, j :: 0 <= i < j < |rows| ==> rows[i].timestamp <= rows[j].timestamp
  }

  predicate StrictlyChronological(rows: seq<Row>) {
    forall i, j :: 0 <= i < j < |rows| ==> rows[i].timestamp < rows[j].timestamp
  }

  /** What a feed writes: positive timestamps that never go back. */
  predicate Appendable(history: seq<Row>) {
    Chronological(history) && forall i :: 0 <= i < |history| ==> history[i].timestamp > 0
  }

  function Empty(n: nat): Buffer {
    Buffer(0, seq(n, _ => ZERO_ROW))
  }

  /** Write the next row: at slot 0 of an empty ring, else at the slot after the newest row. */
  function Append(b: Buffer, row: Row): Buffer
    requires b.insertionIdx < |b.rows|
  {
    var slot := if b.rows[b.insertionIdx].timestamp == 0 then 0 else (b.insertionIdx + 1) % |b.rows|;
    Buffer(slot, b.rows[slot := row])
  }

  /** The ring after a history of appends. */
  function After(n: nat, history: seq<Row>): (b: Buffer)
    requires n > 0
    ensures |b.rows| == n && b.insertionIdx < n
  {
    if history == [] then Empty(n) else Append(After(n, history[..|history| - 1]), history[|history| - 1])
  }

  /** The rows the ring still holds, oldest first. */
  function Retained(history: seq<Row>, n: nat): seq<Row> {
    if |history| <= n then history else history[|history| - n..]
  }

  ghost predicate AllZero(rows: seq<Row>) {
    forall i :: 0 <= i < |rows| ==> rows[i] == ZERO_ROW
  }

  /**
   How the ring holds the rows it keeps after k appends: from slot 0 while there is room, and then, once
   every slot is in use, the older ones after insertion_idx and the newer ones up to it.
   */
  ghost predicate Holds(b: Buffer, kept: seq<Row>, k: nat) {
    var n, idx := |b.rows|, b.insertionIdx;
    && idx < n
    && if k < n then b.rows[..k] == kept && AllZero(b.rows[k..]) && idx == (if k == 0 then 0 else k - 1)
       else kept == b.rows[idx + 1..] + b.rows[..idx + 1]
  }

  lemma {:induction false} RetainedNext(history: seq<Row>, row: Row, n: nat)
    requires n > 0
    ensures var kept := Retained(history, n);
            Retained(history + [row], n) == (if |history| < n then kept else kept[1..]) + [row]
  {
  }

  /** An update splits a sequence around its slot. */
  lemma UpdateSlices(rows: seq<Row>, slot: nat, row: Row)
    requires slot < |rows|
    ensures rows[slot := row][..slot + 1] == rows[..slot] + [row]
    ensures rows[slot := row][slot + 1..] == rows[slot + 1..]
  {
  }

  /** The slot the next row goes to. */
  lemma NextSlot(b: Buffer, row: Row)
    requires b.insertionIdx < |b.rows|
    ensures var idx := b.insertionIdx;
            var slot := if b.rows[idx].timestamp == 0 || idx + 1 == |b.rows| then 0 else idx + 1;
            Append(b, row) == Buffer(slot, b.rows[slot := row])
  {
  }

  /** Until every slot is in use, a row goes to the next free slot. */
  lemma FillingAppend(b: Buffer, kept: seq<Row>, k: nat, row: Row)
    requires Holds(b, kept, k) && k < |b.rows|
    requires k > 0 ==> b.rows[b.insertionIdx].timestamp != 0
    ensures Holds(Append(b, row), kept + [row], k + 1)
  {
    if k == 0 {
      assert b.rows[0] == b.rows[0..][0];
    }
    NextSlot(b, row);
    UpdateSlices(b.rows, k, row);
    hide Append;
    assert Append(b, row) == Buffer(k, b.rows[k := row]);
    assert b.rows[k..][1..] == b.rows[k + 1..];
    assert AllZero(b.rows[k + 1..]) by {
      AllZeroTail(b.rows[k..]);
    }
    var rows' := b.rows[k := row];
    if k + 1 == |rows'| {
      assert rows'[k + 1..] + rows'[..k + 1] == kept + [row];
    }
  }

  lemma AllZeroTail(rows: seq<Row>)
    requires AllZero(rows) && rows != []
    ensures AllZero(rows[1..])
  {
  }

  /** Overwriting the slot after idx, cyclically, drops the oldest row and ends with the new one. */
  lemma OverwrittenRows(rows: seq<Row>, idx: nat, slot: nat, row: Row)
    requires idx < |rows| && slot == if idx + 1 == |rows| then 0 else idx + 1
    ensures var rows' := rows[slot := row];
            rows'[slot + 1..] + rows'[..slot + 1] == (rows[idx + 1..] + rows[..idx + 1])[1..] + [row]
  {
    UpdateSlices(rows, slot, row);
    if idx + 1 == |rows| {
      assert rows[idx + 1..] + rows[..idx + 1] == rows;
      assert rows[..0] == [];
    } else {
      OldestDropped(rows, idx);
    }
  }

  /** From then on a row overwrites the oldest one, wherever that is. */
  lemma OverwritingAppend(b: Buffer, kept: seq<Row>, k: nat, row: Row)
    requires Holds(b, kept, k) && k >= |b.rows|
    requires b.rows[b.insertionIdx].timestamp != 0
    ensures kept != [] && Holds(Append(b, row), kept[1..] + [row], k + 1)
  {
    NextSlot(b, row);
    hide Append;
    OverwrittenRows(b.rows, b.insertionIdx, Append(b, row).insertionIdx, row);
  }

  lemma OldestDropped(rows: seq<Row>, idx: nat)
    requires idx + 1 < |rows|
    ensures (rows[idx + 1..] + rows[..idx + 1])[1..] == rows[idx + 2..] + rows[..idx + 1]
  {
  }

  /** The newest row sits at insertion_idx. */
  lemma NewestRow(b: Buffer, kept: seq<Row>, k: nat)
    requires Holds(b, kept, k) && kept != [] && k > 0
    ensures b.rows[b.insertionIdx] == kept[|kept| - 1]
  {
    var idx := b.insertionIdx;
    assert b.rows[..idx + 1][idx] == b.rows[idx];
  }

  /** One more append, whatever the state of the ring. */
  lemma AppendHolds(b: Buffer, kept: seq<Row>, k: nat, row: Row)
    requires Holds(b, kept, k) && |kept| == (if k < |b.rows| then k else |b.rows|)
    requires kept != [] ==> kept[|kept| - 1].timestamp > 0
    ensures k >= |b.rows| ==> kept != []
    ensures Holds(Append(b, row), (if k < |b.rows| then kept else kept[1..]) + [row], k + 1)
  {
    assert b.insertionIdx < |b.rows|;
    if k > 0 {
      NewestRow(b, kept, k);
    }
    hide Holds, Append;
    if k < |b.rows| {
      FillingAppend(b, kept, k, row);
    } else {
      OverwritingAppend(b, kept, k, row);
    }
  }

  lemma RetainedEnd(history: seq<Row>, n: nat)
    requires n > 0
    ensures |Retained(history, n)| == if |history| < n then |history| else n
    ensures history != [] ==> Retained(history, n)[|Retained(history, n)| - 1] == history[|history| - 1]
  {
  }

  lemma FrontAppendable(history: seq<Row>)
    requires Appendable(history) && history != []
    ensures Appendable(history[..|history| - 1])
    ensures forall i :: 0 <= i < |history| ==> history[i].timestamp > 0
  {
  }

  lemma AfterNext(n: nat, front: seq<Row>, row: Row)
    requires n > 0
    ensures After(n, front + [row]) == Append(After(n, front), row)
  {
    assert (front + [row])[..|front|] == front;
  }

  lemma NewRingHolds(n: nat)
    requires n > 0
    ensures Holds(After(n, []), Retained([], n), 0)
  {
    assert Empty(n).rows[..0] == [] && AllZero(Empty(n).rows[0..]);
  }

  lemma {:induction false} RingHolds(n: nat, history: seq<Row>)
    requires n > 0 && Appendable(history)
    ensures Holds(After(n, history), Retained(history, n), |history|)
  {
    hide Holds, Append, Retained, Appendable, After;
    if history == [] {
      NewRingHolds(n);
    } else {
      var front, row := history[..|history| - 1], history[|history| - 1];
      FrontAppendable(history);
      RingHolds(n, front);
      assert history == front + [row];
      RetainedNext(front, row, n);
      RetainedEnd(front, n);
      AppendHolds(After(n, front), Retained(front, n), |front|, row);
      AfterNext(n, front, row);
    }
  }

  // ---------------------------------------------------------------- the search is right

  ghost predicate SplitAt(rows: seq<Row>, timestamp: int, lo: nat, hi: nat) {
    && (forall i :: 0 <= i < lo && i < |rows| ==> rows[i].timestamp < timestamp)
    && (forall i :: hi <= i < |rows| ==> timestamp <= rows[i].timestamp)
  }

  /** A probe of a sorted slice moves one end of the split to the probed index. */
  lemma Probe(rows: seq<Row>, timestamp: int, lo: nat, hi: nat, mid: nat)
    requires Chronological(rows) && SplitAt(rows, timestamp, lo, hi) && mid < |rows|
    ensures rows[mid].timestamp < timestamp ==> SplitAt(rows, timestamp, mid, hi)
    ensures rows[mid].timestamp >= timestamp ==> forall hi': nat :: mid <= hi' ==> SplitAt(rows, timestamp, lo, hi')
  {
  }

  lemma {:induction false} NarrowSplits(rows: seq<Row>, timestamp: int, base: nat, size: nat)
    requires 1 <= size && base + size <= |rows| && Chronological(rows)
    requires SplitAt(rows, timestamp, base, base + size)
    ensures var r := Narrow(rows, timestamp, base, size);
            base <= r < base + size && SplitAt(rows, timestamp, r, r + 1)
    decreases size
  {
    hide SplitAt, Chronological;
    if size > 1 {
      var half := size / 2;
      var mid := base + half;
      Probe(rows, timestamp, base, base + size, mid);
      NarrowSplits(rows, timestamp, if rows[mid].timestamp < timestamp then mid else base, size - half);
    }
  }

  /** The binary search splits a sorted slice at the timestamp. */
  lemma LowerBoundBySplits(rows: seq<Row>, timestamp: int)
    requires Chronological(rows)
    ensures var r := LowerBoundBy(rows, timestamp); r <= |rows| && SplitAt(rows, timestamp, r, r)
  {
    if rows != [] {
      assert SplitAt(rows, timestamp, 0, |rows|);
      NarrowSplits(rows, timestamp, 0, |rows|);
    }
  }

  /** r is the latest of the rows at or before the timestamp, or there is none. */
  ghost predicate Predecessor(rows: seq<Row>, timestamp: int, r: Option<Row>) {
    match r
    case None => forall i :: 0 <= i < |rows| ==> timestamp < rows[i].timestamp
    case Some(row) =>
      && row in rows && row.timestamp <= timestamp
      && forall i :: 0 <= i < |rows| && rows[i].timestamp <= timestamp ==> rows[i].timestamp <= row.timestamp
  }

  /** The search of one sorted slice, as lower_bound does it twice. */
  function SearchSlice(rows: seq<Row>, timestamp: int): Option<Row> {
    var k := LowerBoundBy(rows, timestamp);
    LowerBoundByInRange(rows, timestamp);
    if k < |rows| && rows[k].timestamp == timestamp then Some(rows[k])
    else if k != 0 then Some(rows[k - 1])
    else None
  }

  lemma SearchSliceFinds(rows: seq<Row>, timestamp: int)
    requires Chronological(rows)
    ensures Predecessor(rows, timestamp, SearchSlice(rows, timestamp))
  {
    LowerBoundBySplits(rows, timestamp);
  }

  /** The retained rows are the slice after insertion_idx, if it is in use, then the slice up to it. */
  lemma RetainedSlices(n: nat, history: seq<Row>)
    requires n > 0 && Appendable(history) && history != []
    ensures var b := After(n, history);
            var idx := b.insertionIdx;
            var used := |history| >= n;
            && b.rows[idx].timestamp > 0
            && Retained(history, n) == (if used then b.rows[idx + 1..] else []) + b.rows[..idx + 1]
            && (idx + 1 < n ==> (b.rows[idx + 1].timestamp != 0 <==> used))
  {
    RingHolds(n, history);
    var b, kept := After(n, history), Retained(history, n);
    var idx, k := b.insertionIdx, |history|;
    NewestRow(b, kept, k);
    assert kept[|kept| - 1] == history[k - 1];
    if k >= n {
      if idx + 1 < n {
        assert b.rows[idx + 1] == b.rows[idx + 1..][0] == kept[0] == history[k - n];
      }
    } else {
      assert idx + 1 < n ==> b.rows[idx + 1] == b.rows[k..][0] == ZERO_ROW;
    }
  }

  /** lower_bound searches the slice up to insertion_idx, then the one after it if its first row is in use. */
  lemma LowerBoundSearches(b: Buffer, timestamp: int)
    requires b.insertionIdx < |b.rows| && b.rows[b.insertionIdx].timestamp != 0
    ensures var idx := b.insertionIdx;
            var found := SearchSlice(b.rows[..idx + 1], timestamp);
            LowerBound(b, timestamp) ==
              if found.Some? then found
              else if idx + 1 < |b.rows| && b.rows[idx + 1].timestamp != 0 then SearchSlice(b.rows[idx + 1..], timestamp)
              else None
  {
    hide LowerBoundBy;
  }

  /**
   For a ring reached by any number of appends, lower_bound returns a retained row with the greatest
   timestamp not after the given one, and None exactly when every retained row is later.
   */
  lemma LowerBoundIsPredecessor(n: nat, history: seq<Row>, timestamp: int)
    requires n > 0 && Appendable(history)
    ensures Predecessor(Retained(history, n), timestamp, LowerBound(After(n, history), timestamp))
  {
    var b := After(n, history);
    if history != [] {
      RetainedSlices(n, history);
      RetainedChronological(n, history);
      LowerBoundSearches(b, timestamp);
      hide LowerBound, Retained, After, Appendable, SearchSlice;
      var idx := b.insertionIdx;
      var lower, upper := b.rows[..idx + 1], if |history| >= n then b.rows[idx + 1..] else [];
      SliceChronological(upper, lower);
      SearchSliceFinds(lower, timestamp);
      SearchSliceFinds(upper, timestamp);
      SearchBoth(upper, lower, timestamp);
      NothingInNothing(timestamp);
    }
  }

  lemma NothingInNothing(timestamp: int)
    ensures SearchSlice([], timestamp) == None
  {
  }

  lemma RetainedChronological(n: nat, history: seq<Row>)
    requires Chronological(history)
    ensures Chronological(Retained(history, n))
    ensures StrictlyChronological(history) ==> StrictlyChronological(Retained(history, n))
  {
    if |history| > n {
      SuffixChronological(history, |history| - n);
    }
  }

  lemma SuffixChronological(rows: seq<Row>, k: nat)
    requires k <= |rows| && Chronological(rows)
    ensures Chronological(rows[k..])
    ensures StrictlyChronological(rows) ==> StrictlyChronological(rows[k..])
  {
  }

  lemma SliceChronological(upper: seq<Row>, lower: seq<Row>)
    requires Chronological(upper + lower)
    ensures Chronological(upper) && Chronological(lower)
  {
    var all := upper + lower;
    assert forall i :: 0 <= i < |upper| ==> all[i] == upper[i];
    assert forall i :: 0 <= i < |lower| ==> all[|upper| + i] == lower[i];
  }

  /** Searching the later slice first and the earlier one only if that finds nothing. */
  lemma SearchBoth(upper: seq<Row>, lower: seq<Row>, timestamp: int)
    requires Chronological(upper + lower)
    requires Predecessor(lower, timestamp, SearchSlice(lower, timestamp))
    requires Predecessor(upper, timestamp, SearchSlice(upper, timestamp))
    ensures var r := if SearchSlice(lower, timestamp).Some? then SearchSlice(lower, timestamp) else SearchSlice(upper, timestamp);
            Predecessor(upper + lower, timestamp, r)
  {
    hide SearchSlice;
    var all := upper + lower;
    assert forall i :: 0 <= i < |upper| ==> all[i] == upper[i];
    assert forall i :: 0 <= i < |lower| ==> all[|upper| + i] == lower[i];
    if SearchSlice(lower, timestamp).Some? {
      var row := SearchSlice(lower, timestamp).value;
      var j :| 0 <= j < |lower| && lower[j] == row;
      assert all[|upper| + j] == row;
      forall i | 0 <= i < |all| && all[i].timestamp <= timestamp
        ensures all[i].timestamp <= row.timestamp
      {
        if i < |upper| {
          assert all[i].timestamp <= all[|upper| + j].timestamp;
        } else {
          assert all[i] == lower[i - |upper|];
        }
      }
    } else {
      forall i | |upper| <= i < |all|
        ensures timestamp < all[i].timestamp
      {
        assert all[i] == lower[i - |upper|];
      }
    }
  }

  // ---------------------------------------------------------------- against a linear scan

  /** The last row at or before the timestamp, by looking at every row from the newest back. */
  function Scan(rows: seq<Row>, timestamp: int): Option<Row> {
    if rows == [] then None
    else if rows[|rows| - 1].timestamp <= timestamp then Some(rows[|rows| - 1])
    else Scan(rows[..|rows| - 1], timestamp)
  }

  lemma {:induction false} ScanFinds(rows: seq<Row>, timestamp: int)
    requires Chronological(rows)
    ensures Predecessor(rows, timestamp, Scan(rows, timestamp))
  {
    if rows != [] && rows[|rows| - 1].timestamp > timestamp {
      var front := rows[..|rows| - 1];
      ScanFinds(front, timestamp);
      assert forall i :: 0 <= i < |front| ==> front[i] == rows[i];
    }
  }

  // ---------------------------------------------------------------- equal timestamps

  predicate Occurs(rows: seq<Row>, timestamp: int) {
    exists i :: 0 <= i < |rows| && rows[i].timestamp == timestamp
  }

  function FirstAt(rows: seq<Row>, timestamp: int): Option<Row> {
    if rows == [] then None
    else if rows[0].timestamp == timestamp then Some(rows[0])
    else FirstAt(rows[1..], timestamp)
  }

  function LastAt(rows: seq<Row>, timestamp: int): Option<Row> {
    if rows == [] then None
    else if rows[|rows| - 1].timestamp == timestamp then Some(rows[|rows| - 1])
    else LastAt(rows[..|rows| - 1], timestamp)
  }

  lemma {:induction false} FirstAtIs(rows: seq<Row>, timestamp: int, i: nat)
    requires i < |rows| && rows[i].timestamp == timestamp
    requires forall j :: 0 <= j < i ==> rows[j].timestamp != timestamp
    ensures FirstAt(rows, timestamp) == Some(rows[i])
  {
    if i > 0 {
      FirstAtIs(rows[1..], timestamp, i - 1);
    }
  }

  lemma {:induction false} LastAtFinds(rows: seq<Row>, timestamp: int)
    ensures LastAt(rows, timestamp).Some? <==> Occurs(rows, timestamp)
  {
    if rows != [] && rows[|rows| - 1].timestamp != timestamp {
      var front := rows[..|rows| - 1];
      LastAtFinds(front, timestamp);
      assert forall i :: 0 <= i < |front| ==> front[i] == rows[i];
    }
  }

  /** The scan stops at the last row it does not have to skip. */
  lemma {:induction false} ScanIs(rows: seq<Row>, timestamp: int, i: nat)
    requires i <= |rows| && forall j :: i <= j < |rows| ==> timestamp < rows[j].timestamp
    requires i > 0 ==> rows[i - 1].timestamp <= timestamp
    ensures Scan(rows, timestamp) == if i > 0 then Some(rows[i - 1]) else None
    decreases |rows|
  {
    if i < |rows| {
      ScanIs(rows[..|rows| - 1], timestamp, i);
    }
  }

  /** At a timestamp that occurs, the scan of a sorted slice stops at its last row. */
  lemma {:induction false} ScanIsLast(rows: seq<Row>, timestamp: int)
    requires Chronological(rows) && Occurs(rows, timestamp)
    ensures Scan(rows, timestamp) == LastAt(rows, timestamp)
  {
    var i :| 0 <= i < |rows| && rows[i].timestamp == timestamp;
    var front := rows[..|rows| - 1];
    if rows[|rows| - 1].timestamp > timestamp {
      assert front[i].timestamp == timestamp;
      ScanIsLast(front, timestamp);
    }
  }

  /** The search of a sorted slice stops at the first row of the timestamp, or else where the scan does. */
  lemma SearchSliceExactly(rows: seq<Row>, timestamp: int)
    requires Chronological(rows)
    ensures SearchSlice(rows, timestamp) ==
            if Occurs(rows, timestamp) then FirstAt(rows, timestamp) else Scan(rows, timestamp)
  {
    LowerBoundBySplits(rows, timestamp);
    var r := LowerBoundBy(rows, timestamp);
    hide LowerBoundBy;
    if Occurs(rows, timestamp) {
      var i :| 0 <= i < |rows| && rows[i].timestamp == timestamp;
      assert r <= i && rows[r].timestamp <= rows[i].timestamp;
      FirstAtIs(rows, timestamp, r);
    } else {
      ScanIs(rows, timestamp, r);
    }
  }

  lemma {:induction false} ScanBoth(upper: seq<Row>, lower: seq<Row>, timestamp: int)
    ensures Scan(upper + lower, timestamp) ==
            if Scan(lower, timestamp).Some? then Scan(lower, timestamp) else Scan(upper, timestamp)
  {
    if lower == [] {
      assert upper + lower == upper;
    } else {
      ScanBoth(upper, lower[..|lower| - 1], timestamp);
      assert (upper + lower)[..|upper + lower| - 1] == upper + lower[..|lower| - 1];
    }
  }

  /** A row found before the timestamp in the later slice rules out the timestamp in the earlier one. */
  lemma EarlierSliceBehind(upper: seq<Row>, lower: seq<Row>, timestamp: int)
    requires Chronological(upper + lower) && !Occurs(lower, timestamp)
    requires Scan(lower, timestamp).Some? && Predecessor(lower, timestamp, Scan(lower, timestamp))
    ensures !Occurs(upper, timestamp)
  {
    var j :| 0 <= j < |lower| && lower[j] == Scan(lower, timestamp).value;
    assert (upper + lower)[|upper| + j] == lower[j];
    forall i | 0 <= i < |upper|
      ensures upper[i].timestamp < timestamp
    {
      assert (upper + lower)[i] == upper[i];
    }
  }

  /** The slice that decides: the one up to insertion_idx if the timestamp occurs there or there is no other. */
  ghost function Deciding(n: nat, history: seq<Row>, timestamp: int): seq<Row>
    requires n > 0
  {
    var b := After(n, history);
    var lower := b.rows[..b.insertionIdx + 1];
    if history == [] then []
    else if Occurs(lower, timestamp) || |history| < n then lower
    else b.rows[b.insertionIdx + 1..]
  }

  /**
   Which row is returned, for every ring and timestamp. At a timestamp that occurs in the deciding slice,
   lower_bound returns the first row of that slice at it and the scan the last one; otherwise they agree.
   */
  lemma DecidedRows(n: nat, history: seq<Row>, timestamp: int)
    requires n > 0 && Appendable(history)
    ensures var found, scanned := LowerBound(After(n, history), timestamp), Scan(Retained(history, n), timestamp);
            var d := Deciding(n, history, timestamp);
            if Occurs(d, timestamp) then
              found == FirstAt(d, timestamp) && scanned == LastAt(d, timestamp) && scanned.Some?
            else found == scanned
  {
    if history != [] {
      var b := After(n, history);
      var idx := b.insertionIdx;
      RetainedSlices(n, history);
      RetainedChronological(n, history);
      LowerBoundSearches(b, timestamp);
      var lower, upper := b.rows[..idx + 1], if |history| >= n then b.rows[idx + 1..] else [];
      NothingInNothing(timestamp);
      hide After, Retained, LowerBound, Appendable, SearchSlice, FirstAt, LastAt, Occurs, Predecessor;
      SliceChronological(upper, lower);
      SlicesDecide(upper, lower, timestamp);
      NothingOccurs(timestamp);
    }
  }

  lemma NothingOccurs(timestamp: int)
    ensures !Occurs([], timestamp)
  {
  }

  /** The same for two sorted slices, of which the later one is searched first. */
  lemma SlicesDecide(upper: seq<Row>, lower: seq<Row>, timestamp: int)
    requires Chronological(upper + lower) && Chronological(upper) && Chronological(lower)
    ensures var inLower := SearchSlice(lower, timestamp);
            var found := if inLower.Some? then inLower else SearchSlice(upper, timestamp);
            var scanned := Scan(upper + lower, timestamp);
            var d := if Occurs(lower, timestamp) then lower else upper;
            if Occurs(d, timestamp) then
              found == FirstAt(d, timestamp) && scanned == LastAt(d, timestamp) && scanned.Some?
            else found == scanned
  {
    SearchSliceExactly(lower, timestamp);
    SearchSliceExactly(upper, timestamp);
    SearchSliceFinds(lower, timestamp);
    ScanBoth(upper, lower, timestamp);
    ScanFinds(lower, timestamp);
    LastAtFinds(lower, timestamp);
    LastAtFinds(upper, timestamp);
    hide SearchSlice, Chronological;
    if Occurs(lower, timestamp) {
      ScanIsLast(lower, timestamp);
      FirstAtFinds(lower, timestamp);
    } else if Scan(lower, timestamp).Some? {
      EarlierSliceBehind(upper, lower, timestamp);
    } else if Occurs(upper, timestamp) {
      ScanIsLast(upper, timestamp);
    }
  }

  lemma {:induction false} FirstAtFinds(rows: seq<Row>, timestamp: int)
    requires Occurs(rows, timestamp)
    ensures FirstAt(rows, timestamp).Some?
  {
    var i :| 0 <= i < |rows| && rows[i].timestamp == timestamp;
    if i > 0 {
      assert rows[1..][i - 1] == rows[i];
      FirstAtFinds(rows[1..], timestamp);
    }
  }

  /**
   lower_bound refines the scan of the retained rows: it finds something exactly when the scan does, at the
   same timestamp; and the very same row if and only if the deciding slice does not hold two different
   rows as its first and last at the timestamp.
   */
  lemma LowerBoundRefinesScan(n: nat, history: seq<Row>, timestamp: int)
    requires n > 0 && Appendable(history)
    ensures var found, scanned := LowerBound(After(n, history), timestamp), Scan(Retained(history, n), timestamp);
            var d := Deciding(n, history, timestamp);
            && (found.Some? <==> scanned.Some?)
            && (found.Some? ==> found.value.timestamp == scanned.value.timestamp)
            && (found == scanned <==> !Occurs(d, timestamp) || FirstAt(d, timestamp) == LastAt(d, timestamp))
            && (StrictlyChronological(history) ==> found == scanned)
  {
    var kept := Retained(history, n);
    RetainedChronological(n, history);
    LowerBoundIsPredecessor(n, history, timestamp);
    ScanFinds(kept, timestamp);
    DecidedRows(n, history, timestamp);
    hide LowerBound, Scan, Deciding, Occurs, FirstAt, LastAt;
    var found, scanned := LowerBound(After(n, history), timestamp), Scan(kept, timestamp);
    PredecessorsAgree(kept, timestamp, found, scanned);
  }

  lemma PredecessorsAgree(rows: seq<Row>, timestamp: int, a: Option<Row>, b: Option<Row>)
    requires Predecessor(rows, timestamp, a) && Predecessor(rows, timestamp, b)
    ensures a.Some? <==> b.Some?
    ensures a.Some? ==> a.value.timestamp == b.value.timestamp
    ensures StrictlyChronological(rows) ==> a == b
  {
    if a.Some? && b.Some? {
      var i :| 0 <= i < |rows| && rows[i] == a.value;
      var j :| 0 <= j < |rows| && rows[j] == b.value;
    }
  }

  /** The smallest case: two rows of equal timestamp, the search stops at the earlier one, the scan at the later. */
  lemma EqualTimestampsDiffer(a: Row, b: Row)
    requires a.timestamp == b.timestamp > 0 && a != b
    ensures LowerBound(After(3, [a, b]), a.timestamp) == Some(a)
    ensures Scan(Retained([a, b], 3), a.timestamp) == Some(b)
  {
    var ring := After(3, [a, b]);
    RingHolds(3, [a, b]);
    hide After;
    assert ring.rows[..2] == [a, b];
    LowerBoundSearches(ring, a.timestamp);
    assert Narrow([a, b], a.timestamp, 0, 2) == 0;
    assert SearchSlice([a, b], a.timestamp) == Some(a);
  }
}
