/**
  The replay cache: INSERT OR IGNORE into a table that evicts its oldest rows, ties broken in any way,
  and the replay bound that it and the 60 s timestamp tolerance give together.
 */
module NonceCache {
  import opened Prelude
  import opened Decimal

  const CAPACITY := 10000
  const KEEP := 9000
  const TOLERANCE_MS := 60_000

  /** A row holds a nonce or, since the schema lets its text key be NULL, none; NULL rows differ by their row ids. */
  datatype Row = Nonce(text: string) | Null(rowid: nat)
  type Table = map<Row, int>

  /** A request's timestamp as the subtraction from the clock sees it: converted to a number, which it may not be. */
  datatype Stamp = NotANumber | Infinite | Ms(ms: real)

  /** A drift that is not a number compares as not too large. */
  predicate Fresh(stamp: Stamp, now: int) {
    match stamp
    case NotANumber => true
    case Infinite => false
    case Ms(ms) => -(TOLERANCE_MS as real) <= now as real - ms <= TOLERANCE_MS as real
  }

  /** `kept` is `full` without some rows, none of them younger than a row that stays. */
  ghost predicate DropsOldest(full: Table, kept: Table) {
    && kept.Keys <= full.Keys
    && (forall n <- kept :: kept[n] == full[n])
    && (forall gone <- full, stays <- kept :: gone !in kept ==> full[gone] <= full[stays])
  }

  function Nulls(t: Table): Table {
    map r | r in t && r.Null? :: t[r]
  }

  /** Eviction selects all rows but the youngest 9000; DELETE by nonce then misses the NULL rows among them. */
  ghost predicate Evicts(grown: Table, left: Table, after: Table) {
    DropsOldest(grown, left) && |left| == KEEP && after == left + Nulls(grown)
  }

  ghost predicate Settles(grown: Table, after: Table) {
    if |grown| > CAPACITY then exists left :: Evicts(grown, left, after) else after == grown
  }

  /** The row that one call inserts; a NULL one conflicts with nothing. */
  predicate IsRowFor(r: Row, nonce: Option<string>, before: Table) {
    if nonce.Some? then r == Nonce(nonce.value) else r.Null? && r !in before
  }

  predicate Known(before: Table, nonce: Option<string>) {
    nonce.Some? && Nonce(nonce.value) in before
  }

  /** One call of `checkAndStoreNonce` at time `now`; no nonce is SQL NULL. */
  ghost predicate Checked(before: Table, nonce: Option<string>, now: int, after: Table, unseen: bool) {
    if Known(before, nonce) then !unseen && after == before
    else unseen && exists r :: IsRowFor(r, nonce, before) && Settles(before[r := now], after)
  }

  lemma Oldest(t: Table) returns (victim: Row)
    requires t != map[]
    ensures victim in t && forall n <- t :: t[victim] <= t[n]
  {
    victim :| victim in t;
    var seen := {victim};
    while t.Keys - seen != {}
      invariant victim in seen && seen <= t.Keys
      invariant forall n <- seen :: t[victim] <= t[n]
      decreases t.Keys - seen
    {
      var next :| next in t.Keys - seen;
      if t[next] < t[victim] { victim := next; }
      seen := seen + {next};
    }
  }

  /** Dropping the oldest row of a table that already dropped its oldest rows drops one more. */
  lemma DropOneMore(full: Table, kept: Table, victim: Row)
    requires DropsOldest(full, kept) && victim in kept && forall n <- kept :: kept[victim] <= kept[n]
    ensures DropsOldest(full, kept - {victim})
    ensures |kept - {victim}| == |kept| - 1
  {
    assert (kept - {victim}).Keys == kept.Keys - {victim};
  }

  // ----- runs -----

  /**
    One request reaching the cache: nonce and timestamp from the envelope, the clock, the cache's answer. In
    between, the program does other things that leave the cache alone.
   */
  datatype Call = Call(nonce: Option<string>, timestamp: Stamp, now: int, unseen: bool) | Idle

  ghost predicate Moves(before: Table, c: Call, after: Table) {
    match c
    case Call(nonce, _, now, unseen) => Checked(before, nonce, now, after, unseen)
    case Idle => after == before
  }

  /** `tables[k]` is the cache before call `k`; the clock does not run backwards. */
  ghost predicate Run(tables: seq<Table>, calls: seq<Call>) {
    && |tables| == |calls| + 1
    && (forall k :: 0 <= k < |calls| ==> Moves(tables[k], calls[k], tables[k + 1]))
    && (forall k, m :: 0 <= k <= m < |calls| && calls[k].Call? && calls[m].Call? ==> calls[k].now <= calls[m].now)
  }

  predicate Stores(c: Call) {
    c.Call? && c.unseen
  }

  predicate Passes(c: Call) {
    Stores(c) && Fresh(c.timestamp, c.now)
  }

  /** The rows that the cache has held up to call `upTo` under a stamp of `since` or later. */
  function RowsSince(tables: seq<Table>, since: int, upTo: nat): set<Row>
    requires upTo < |tables|
  {
    set k, r | 0 <= k <= upTo && r in tables[k] && tables[k][r] >= since :: r
  }

  /** Each of these rows was there at the start or was stored by a call at `since` or later. */
  lemma {:induction false} RowsWereStored(tables: seq<Table>, calls: seq<Call>, since: int, k: nat, r: Row)
    requires Run(tables, calls) && k <= |calls| && r in tables[k] && tables[k][r] >= since
    ensures || (r in tables[0] && tables[0][r] >= since)
            || (exists c: nat :: c < k && Stores(calls[c]) && calls[c].now >= since && IsRowFor(r, calls[c].nonce, tables[c]))
  {
    if k > 0 {
      var c := calls[k - 1];
      assert Moves(tables[k - 1], c, tables[k]);
      if r in tables[k - 1] && tables[k - 1][r] >= since {
        RowsWereStored(tables, calls, since, k - 1, r);
      }
    }
  }

  lemma {:induction false} SubsetIsSmaller(a: set<Row>, b: set<Row>)
    requires a <= b
    ensures |a| <= |b|
  {
    if a != {} {
      var x :| x in a;
      SubsetIsSmaller(a - {x}, b - {x});
    }
  }

  lemma EvictedIsOld(grown: Table, left: Table, after: Table, row: Row)
    requires Evicts(grown, left, after) && row in grown && row !in after
    ensures left.Keys <= after.Keys && row !in left && forall n <- left :: after[n] >= grown[row]
  {
    forall n <- left ensures after[n] >= grown[row] {
      assert after[n] == grown[n];
    }
  }

  /** What a call leaves of a row that is not the one it inserts: the same row, or, having evicted it, 9000 younger. */
  lemma RowGoes(before: Table, c: Call, after: Table, row: Row) returns (left: Table)
    requires Moves(before, c, after) && row in before && row !in after && row.Nonce?
    ensures |left| == KEEP && left.Keys <= after.Keys && row !in left
    ensures forall n <- left :: after[n] >= before[row]
  {
    var r :| IsRowFor(r, c.nonce, before) && Settles(before[r := c.now], after);
    left :| Evicts(before[r := c.now], left, after);
    EvictedIsOld(before[r := c.now], left, after, row);
  }

  lemma NewRowGoes(before: Table, c: Call, after: Table) returns (left: Table)
    requires Moves(before, c, after) && Stores(c) && c.nonce.Some? && Nonce(c.nonce.value) !in after
    ensures |left| == KEEP && left.Keys <= after.Keys
    ensures forall n <- left :: after[n] >= c.now
  {
    var r :| IsRowFor(r, c.nonce, before) && Settles(before[r := c.now], after);
    left :| Evicts(before[r := c.now], left, after);
    EvictedIsOld(before[r := c.now], left, after, r);
  }

  lemma RowStays(before: Table, c: Call, after: Table, row: Row)
    requires Moves(before, c, after) && row in before && row in after && row.Nonce?
    ensures after[row] == before[row]
  {
  }

  lemma NewRowStays(before: Table, c: Call, after: Table)
    requires Moves(before, c, after) && Stores(c) && c.nonce.Some? && Nonce(c.nonce.value) in after
    ensures after[Nonce(c.nonce.value)] == c.now
  {
  }

  lemma {:induction false} LastHeld(tables: seq<Table>, row: Row, a: nat, j: nat) returns (m: nat)
    requires a < j < |tables| && row in tables[a] && row !in tables[j]
    ensures a <= m < j && row !in tables[m + 1] && forall k :: a <= k <= m ==> row in tables[k]
    decreases j - a
  {
    if row in tables[a + 1] { m := LastHeld(tables, row, a + 1, j); } else { m := a; }
  }

  lemma {:induction false} StampStays(tables: seq<Table>, calls: seq<Call>, row: Row, a: nat, m: nat)
    requires Run(tables, calls) && a <= m <= |calls| && row.Nonce?
    requires forall k :: a <= k <= m ==> row in tables[k]
    ensures tables[m][row] == tables[a][row]
  {
    if a < m {
      StampStays(tables, calls, row, a, m - 1);
      assert row in tables[m - 1];
      RowStays(tables[m - 1], calls[m - 1], tables[m], row);
    }
  }

  /** The call that evicts a nonce which call `i` stored and which is gone before call `j`. */
  lemma EvictionPoint(tables: seq<Table>, calls: seq<Call>, i: nat, j: nat) returns (m: nat, left: Table)
    requires Run(tables, calls) && i < j < |calls|
    requires Stores(calls[i]) && calls[i].nonce.Some? && Nonce(calls[i].nonce.value) !in tables[j]
    ensures i <= m < j && left.Keys <= tables[m + 1].Keys
    ensures |left| == 9000 && Nonce(calls[i].nonce.value) !in left
    ensures forall n <- left :: calls[i].now <= tables[m + 1][n]
  {
    var row := Nonce(calls[i].nonce.value);
    if row !in tables[i + 1] {
      m := i;
      left := NewRowGoes(tables[i], calls[i], tables[i + 1]);
    } else {
      m, left := EvictedLater(tables, calls, i, j, row);
    }
  }

  lemma EvictedLater(tables: seq<Table>, calls: seq<Call>, i: nat, j: nat, row: Row) returns (m: nat, left: Table)
    requires Run(tables, calls) && i < j < |calls| && Stores(calls[i]) && calls[i].nonce.Some?
    requires row == Nonce(calls[i].nonce.value) && row in tables[i + 1] && row !in tables[j]
    ensures i < m < j && left.Keys <= tables[m + 1].Keys && |left| == KEEP && row !in left
    ensures forall n <- left :: calls[i].now <= tables[m + 1][n]
  {
    m := LaterPoint(tables, calls, i, j, row);
    assert Moves(tables[m], calls[m], tables[m + 1]);
    left := RowGoes(tables[m], calls[m], tables[m + 1], row);
  }

  lemma LaterPoint(tables: seq<Table>, calls: seq<Call>, i: nat, j: nat, row: Row) returns (m: nat)
    requires Run(tables, calls) && i < j < |calls| && Stores(calls[i]) && calls[i].nonce.Some?
    requires row == Nonce(calls[i].nonce.value) && row in tables[i + 1] && row !in tables[j]
    ensures i < m < j && row in tables[m] && row !in tables[m + 1] && tables[m][row] == calls[i].now
  {
    NewRowStays(tables[i], calls[i], tables[i + 1]);
    m := LastHeld(tables, row, i + 1, j);
    StampStays(tables, calls, row, i + 1, m);
  }

  /** The rows other than call `i`'s own that were in the cache before call `j` with stamps no earlier than its own. */
  function OthersStored(tables: seq<Table>, calls: seq<Call>, i: nat, j: nat): set<Row>
    requires i < j < |calls| < |tables| && calls[i].Call?
  {
    RowsSince(tables, calls[i].now, j) - if calls[i].nonce.Some? then {Nonce(calls[i].nonce.value)} else {}
  }

  lemma ForgottenUnderPressure(tables: seq<Table>, calls: seq<Call>, i: nat, j: nat)
    requires Run(tables, calls) && i < j < |calls|
    requires Stores(calls[i]) && calls[i].nonce.Some? && Nonce(calls[i].nonce.value) !in tables[j]
    ensures |OthersStored(tables, calls, i, j)| >= 9000
  {
    var m, left := EvictionPoint(tables, calls, i, j);
    forall n | n in left.Keys ensures n in OthersStored(tables, calls, i, j) {
      assert n in tables[m + 1] && tables[m + 1][n] >= calls[i].now;
    }
    SubsetIsSmaller(left.Keys, OthersStored(tables, calls, i, j));
  }

  /** One request passes at calls `i` and `j`. */
  ghost predicate PassesTwice(tables: seq<Table>, calls: seq<Call>, i: nat, j: nat) {
    && Run(tables, calls) && i < j < |calls| && Passes(calls[i]) && Passes(calls[j])
    && calls[i].nonce == calls[j].nonce && calls[i].timestamp == calls[j].timestamp
  }

  /**
    The replay bound. A request whose timestamp is a number passes twice only within twice the tolerance; one
    whose nonce is a string, only because at least 9000 other rows with stamps no earlier than its own were
    stored in the meantime.
   */
  lemma ReplayBound(tables: seq<Table>, calls: seq<Call>, i: nat, j: nat)
    requires PassesTwice(tables, calls, i, j)
    ensures calls[i].timestamp != NotANumber ==> calls[j].now - calls[i].now <= 120_000
    ensures calls[i].nonce.Some? ==> |OthersStored(tables, calls, i, j)| >= 9000
  {
    assert Moves(tables[j], calls[j], tables[j + 1]);
    if calls[i].nonce.Some? { ForgottenUnderPressure(tables, calls, i, j); }
  }

  /** Until 9000 other rows have been stored, a repeated nonce is refused however it is timed. */
  lemma NoReplayBelowCapacity(tables: seq<Table>, calls: seq<Call>, i: nat, j: nat)
    requires Run(tables, calls) && i < j < |calls|
    requires Stores(calls[i]) && calls[j].Call? && calls[i].nonce.Some? && calls[i].nonce == calls[j].nonce
    requires |OthersStored(tables, calls, i, j)| < 9000
    ensures !calls[j].unseen && tables[j + 1] == tables[j]
  {
    assert Moves(tables[j], calls[j], tables[j + 1]);
    if Nonce(calls[i].nonce.value) !in tables[j] { ForgottenUnderPressure(tables, calls, i, j); }
  }

  // ----- exactly which requests are bounded -----

  function Filler(n: nat): Table {
    map k | 0 <= k < n :: Nonce(ToText(k)) := 0
  }

  lemma FillerIsNew(n: nat)
    ensures Nonce(ToText(n)) !in Filler(n) && Nonce("") !in Filler(n)
  {
    forall k | 0 <= k < n ensures ToText(k) != ToText(n) && ToText(k) != "" {
      TextIsNeverEmpty(k);
      if ToText(k) == ToText(n) { TextIsInjective(k, n); }
    }
  }

  lemma FillerGrows(n: nat)
    ensures Filler(n + 1) == Filler(n)[Nonce(ToText(n)) := 0]
  {
  }

  lemma {:induction false} FillerSize(n: nat)
    ensures |Filler(n)| == n
    ensures Nonce("") !in Filler(n)
    ensures forall r <- Filler(n) :: r.Nonce? && Filler(n)[r] == 0
  {
    FillerIsNew(n);
    if n > 0 {
      FillerSize(n - 1);
      FillerIsNew(n - 1);
      FillerGrows(n - 1);
    }
  }

  /** Every replay with this timestamp comes within twice the tolerance. */
  ghost predicate Windowed(stamp: Stamp) {
    forall tables: seq<Table>, calls: seq<Call>, i: nat, j: nat ::
      PassesTwice(tables, calls, i, j) && calls[i].timestamp == stamp ==> calls[j].now - calls[i].now <= 120_000
  }

  /** Evicted as soon as it is stored, a request that is not timed by a number passes again whenever it likes. */
  lemma UntimedReplay(gap: nat) returns (tables: seq<Table>, calls: seq<Call>)
    ensures |calls| == 2 && PassesTwice(tables, calls, 0, 1)
    ensures calls[0].timestamp == NotANumber && calls[1].now - calls[0].now == gap
  {
    FillerSize(CAPACITY);
    FillerSize(KEEP);
    tables, calls := ReplayOver(Filler(CAPACITY), Filler(KEEP), gap);
  }

  lemma ReplayOver(full: Table, left: Table, gap: nat) returns (tables: seq<Table>, calls: seq<Call>)
    requires |full| == CAPACITY && |left| == KEEP && left.Keys <= full.Keys && Nonce("") !in full
    requires forall r <- full :: r.Nonce? && full[r] == 0
    requires forall r <- left :: left[r] == 0
    ensures |calls| == 2 && PassesTwice(tables, calls, 0, 1)
    ensures calls[0].timestamp == NotANumber && calls[1].now - calls[0].now == gap
  {
    var last := left[Nonce("") := gap];
    tables := [full, left, last];
    calls := [Call(Some(""), NotANumber, 0, true), Call(Some(""), NotANumber, gap, true)];
    StoredAndEvicted(full, left);
    StoredInRoom(left, gap, last);
    TwoCalls(tables, calls);
  }

  lemma TwoCalls(tables: seq<Table>, calls: seq<Call>)
    requires |tables| == 3 && |calls| == 2 && Moves(tables[0], calls[0], tables[1]) && Moves(tables[1], calls[1], tables[2])
    requires calls[0].Call? && calls[1].Call? && calls[0].now <= calls[1].now
    ensures Run(tables, calls)
  {
  }

  lemma StoredAndEvicted(full: Table, left: Table)
    requires |full| == CAPACITY && |left| == KEEP && left.Keys <= full.Keys && Nonce("") !in full
    requires forall r <- full :: r.Nonce? && full[r] == 0
    requires forall r <- left :: left[r] == 0
    ensures Moves(full, Call(Some(""), NotANumber, 0, true), left)
  {
    var grown := full[Nonce("") := 0];
    assert Nulls(grown) == map[] && left + Nulls(grown) == left;
    assert Evicts(grown, left, left);
    assert IsRowFor(Nonce(""), Some(""), full) && Settles(grown, left);
  }

  lemma StoredInRoom(left: Table, now: int, last: Table)
    requires |left| == KEEP && Nonce("") !in left && last == left[Nonce("") := now]
    ensures Moves(left, Call(Some(""), NotANumber, now, true), last)
  {
    assert IsRowFor(Nonce(""), Some(""), left) && Settles(last, last);
  }

  /** The tolerance bounds the replays of exactly those requests whose timestamp converts to a number. */
  lemma WindowedExactly(stamp: Stamp)
    ensures Windowed(stamp) <==> stamp != NotANumber
  {
    if stamp == NotANumber {
      var tables, calls := UntimedReplay(2 * TOLERANCE_MS + 1);
      assert PassesTwice(tables, calls, 0, 1);
    } else {
      forall tables: seq<Table>, calls: seq<Call>, i: nat, j: nat | PassesTwice(tables, calls, i, j) && calls[i].timestamp == stamp
        ensures calls[j].now - calls[i].now <= 2 * TOLERANCE_MS
      {
        ReplayBound(tables, calls, i, j);
      }
    }
  }

  /** Every replay with this nonce takes 9000 other rows. */
  ghost predicate Pressed(nonce: Option<string>) {
    forall tables: seq<Table>, calls: seq<Call>, i: nat, j: nat :: PassesTwice(tables, calls, i, j) && calls[i].nonce == nonce ==>
      |OthersStored(tables, calls, i, j)| >= 9000
  }

  lemma NullReplay() returns (tables: seq<Table>, calls: seq<Call>)
    ensures |calls| == 2 && PassesTwice(tables, calls, 0, 1) && calls[0].nonce == None
    ensures |OthersStored(tables, calls, 0, 1)| < KEEP
  {
    var one: Table := map[Null(0) := 0];
    var two := one[Null(1) := 0];
    tables := [map[], one, two];
    calls := [Call(None, Ms(0.0), 0, true), Call(None, Ms(0.0), 0, true)];
    assert IsRowFor(Null(0), None, map[]) && Settles(one, one);
    assert IsRowFor(Null(1), None, one) && Settles(two, two);
    assert Moves(map[], calls[0], one) && Moves(one, calls[1], two);
    assert OthersStored(tables, calls, 0, 1) <= {Null(0)};
    SubsetIsSmaller(OthersStored(tables, calls, 0, 1), {Null(0)});
  }

  /** The cache itself stands in the way of exactly those replays whose nonce is a string. */
  lemma PressedExactly(nonce: Option<string>)
    ensures Pressed(nonce) <==> nonce.Some?
  {
    if nonce == None {
      var tables, calls := NullReplay();
      assert PassesTwice(tables, calls, 0, 1);
    } else {
      forall tables: seq<Table>, calls: seq<Call>, i: nat, j: nat | PassesTwice(tables, calls, i, j) && calls[i].nonce == nonce
        ensures |OthersStored(tables, calls, i, j)| >= KEEP
      {
        ReplayBound(tables, calls, i, j);
      }
    }
  }

  // ----- capacity -----

  ghost predicate Bounded(t: Table) {
    |t| <= CAPACITY || |t| <= KEEP + |Nulls(t)|
  }

  lemma {:induction false} SumIsNoLarger(a: Table, b: Table)
    ensures |a + b| <= |a| + |b|
  {
    assert (a + b).Keys == a.Keys + b.Keys;
    assert |a.Keys + b.Keys| == |a.Keys| + |b.Keys| - |a.Keys * b.Keys|;
    assert |(a + b).Keys| == |a + b|;
  }

  lemma EvictionKeepsBound(grown: Table, left: Table, after: Table)
    requires Evicts(grown, left, after)
    ensures Bounded(after)
  {
    SumIsNoLarger(left, Nulls(grown));
    assert Nulls(after) == Nulls(grown);
  }

  lemma MovesKeepsBound(before: Table, c: Call, after: Table)
    requires Moves(before, c, after) && Bounded(before)
    ensures Bounded(after)
  {
    if Stores(c) {
      var r :| IsRowFor(r, c.nonce, before) && Settles(before[r := c.now], after);
      var grown := before[r := c.now];
      if |grown| > CAPACITY {
        var left :| Evicts(grown, left, after);
        EvictionKeepsBound(grown, left, after);
      }
    }
  }

  /** No call leaves more than 10 000 rows, unless more than 1000 of them are NULL. */
  lemma {:induction false} NeverOverCapacity(tables: seq<Table>, calls: seq<Call>, k: nat)
    requires Run(tables, calls) && k <= |calls| && |tables[0]| <= CAPACITY
    ensures |tables[k]| <= 10_000 || |tables[k]| <= 9000 + |Nulls(tables[k])|
  {
    if k > 0 {
      NeverOverCapacity(tables, calls, k - 1);
      MovesKeepsBound(tables[k - 1], calls[k - 1], tables[k]);
    }
  }

  /** A call that finds fewer than 10 000 rows drops none, and leaves those there under the stamps they had. */
  lemma NoneGoesBelowCapacity(tables: seq<Table>, calls: seq<Call>, k: nat, row: Row)
    requires Run(tables, calls) && k < |calls| && |tables[k]| < 10_000 && row in tables[k] && row.Nonce?
    ensures row in tables[k + 1] && tables[k + 1][row] == tables[k][row]
  {
    assert Moves(tables[k], calls[k], tables[k + 1]);
    if Stores(calls[k]) {
      var r :| IsRowFor(r, calls[k].nonce, tables[k]) && Settles(tables[k][r := calls[k].now], tables[k + 1]);
      GrowsByOne(tables[k], r, calls[k].now);
    }
  }

  /** A NULL row is never evicted. */
  lemma NullsStay(tables: seq<Table>, calls: seq<Call>, k: nat, row: Row)
    requires Run(tables, calls) && k < |calls| && row in tables[k] && row.Null?
    ensures row in tables[k + 1]
  {
    assert Moves(tables[k], calls[k], tables[k + 1]);
  }

  lemma GrowsByOne(t: Table, r: Row, now: int)
    ensures |t[r := now]| <= |t| + 1
  {
    if r in t {
      assert t[r := now].Keys == t.Keys;
    } else {
      assert t[r := now].Keys == t.Keys + {r};
    }
  }
}
