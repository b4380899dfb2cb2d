/** Successor selection: the three-level tiebreak, and the proof that it does not depend on row order. */
module Selector {
  import opened Prelude
  import opened ProtocolState

  /** `localeCompare`: some total order on ids, zero only on equal ids. */
  type Collation = (string, string) -> int

  ghost predicate IsCollation(c: Collation) {
    && (forall x, y :: c(x, y) == 0 <==> x == y)
    && (forall x, y :: c(x, y) < 0 <==> c(y, x) > 0)
    && (forall x, y, z :: c(x, y) < 0 && c(y, z) < 0 ==> c(x, z) < 0)
  }

  /** The comparator handed to `sort`. */
  function Compare(a: Backup, b: Backup, c: Collation): int {
    if b.streak != a.streak then b.streak - a.streak
    else if a.registeredAt != b.registeredAt then a.registeredAt - b.registeredAt
    else c(a.tee, b.tee)
  }

  ghost predicate DistinctTees(rows: seq<Backup>) {
    forall i, j :: 0 <= i < j < |rows| ==> rows[i].tee != rows[j].tee
  }

  ghost predicate InOrder(rows: seq<Backup>, c: Collation) {
    forall i, j :: 0 <= i < j < |rows| ==> Compare(rows[i], rows[j], c) < 0
  }

  ghost predicate SameRows(a: seq<Backup>, b: seq<Backup>) {
    forall r :: r in a <==> r in b
  }

  function StandbyOnly(rows: seq<Backup>): (kept: seq<Backup>)
    ensures forall r :: r in kept <==> r in rows && r.status == Standby
  {
    if rows == [] then []
    else (if rows[0].status == Standby then [rows[0]] else []) + StandbyOnly(rows[1..])
  }

  function Insert(r: Backup, rows: seq<Backup>, c: Collation): (out: seq<Backup>)
    ensures multiset(out) == multiset(rows) + multiset{r} && |out| == |rows| + 1
    decreases rows
  {
    if rows == [] || Compare(r, rows[0], c) <= 0 then [r] + rows
    else
      assert rows == [rows[0]] + rows[1..];
      [rows[0]] + Insert(r, rows[1..], c)
  }

  /** `rows.sort(compare)` */
  function Ranked(rows: seq<Backup>, c: Collation): (out: seq<Backup>)
    ensures multiset(out) == multiset(rows) && |out| == |rows|
    decreases rows
  {
    if rows == [] then []
    else
      assert rows == [rows[0]] + rows[1..];
      Insert(rows[0], Ranked(rows[1..], c), c)
  }

  function SelectSuccessor(backups: seq<Backup>, c: Collation): Option<Backup> {
    var standby := StandbyOnly(backups);
    if standby == [] then None else Some(Ranked(standby, c)[0])
  }

  /** The order that the tiebreak is meant to give: longer streak, then earlier registration, then lower TEE id. */
  predicate Ahead(a: Backup, b: Backup, c: Collation) {
    || a.streak > b.streak
    || (a.streak == b.streak && a.registeredAt < b.registeredAt)
    || (a.streak == b.streak && a.registeredAt == b.registeredAt && c(a.tee, b.tee) < 0)
  }

  // ----- the order -----

  /** The comparator gives that order. */
  lemma CompareIsAhead(a: Backup, b: Backup, c: Collation)
    requires IsCollation(c)
    ensures Compare(a, b, c) < 0 <==> Ahead(a, b, c)
    ensures Compare(a, b, c) > 0 <==> Ahead(b, a, c)
  {
  }

  lemma CompareIsATotalOrder(x: Backup, y: Backup, z: Backup, c: Collation)
    requires IsCollation(c)
    ensures Compare(x, y, c) < 0 <==> Compare(y, x, c) > 0
    ensures Compare(x, y, c) < 0 && Compare(y, z, c) < 0 ==> Compare(x, z, c) < 0
    ensures x.tee != y.tee ==> Compare(x, y, c) != 0
  {
  }

  lemma InEither(a: seq<Backup>, b: seq<Backup>)
    requires multiset(a) == multiset(b)
    ensures SameRows(a, b) && |a| == |b|
  {
    assert forall r :: r in a <==> r in multiset(a);
    assert forall r :: r in b <==> r in multiset(b);
  }

  lemma {:induction false} InsertKeepsOrder(r: Backup, rows: seq<Backup>, c: Collation)
    requires IsCollation(c) && InOrder(rows, c)
    requires forall x <- rows :: x.tee != r.tee
    ensures InOrder(Insert(r, rows, c), c)
  {
    if rows == [] {
    } else if Compare(r, rows[0], c) <= 0 {
      forall j | 0 <= j < |rows| ensures Compare(r, rows[j], c) < 0 {
        CompareIsATotalOrder(r, rows[0], rows[j], c);
      }
    } else {
      InsertKeepsOrder(r, rows[1..], c);
      var tail := Insert(r, rows[1..], c);
      assert multiset(tail) == multiset(rows[1..] + [r]);
      InEither(tail, rows[1..] + [r]);
      forall j | 0 <= j < |tail| ensures Compare(rows[0], tail[j], c) < 0 {
        assert tail[j] in rows[1..] + [r];
        CompareIsATotalOrder(rows[0], r, r, c);
        if tail[j] != r {
          var k :| 0 <= k < |rows[1..]| && rows[1..][k] == tail[j];
          assert rows[k + 1] == tail[j];
        }
      }
    }
  }

  lemma {:induction false} RankedIsInOrder(rows: seq<Backup>, c: Collation)
    requires IsCollation(c) && DistinctTees(rows)
    ensures InOrder(Ranked(rows, c), c)
  {
    if rows != [] {
      RankedIsInOrder(rows[1..], c);
      InEither(Ranked(rows[1..], c), rows[1..]);
      InsertKeepsOrder(rows[0], Ranked(rows[1..], c), c);
    }
  }

  /** Any two sorted sequences of the same rows are one sequence: the sorting algorithm does not matter. */
  lemma {:induction false} RankingIsUnique(a: seq<Backup>, b: seq<Backup>, c: Collation)
    requires IsCollation(c) && InOrder(a, c) && InOrder(b, c) && SameRows(a, b)
    ensures a == b
  {
    assert b == [] || b[0] in a;
    if a != [] {
      assert a[0] in b;
      if a[0] != b[0] {
        var i :| 0 <= i < |a| && a[i] == b[0];
        var j :| 0 <= j < |b| && b[j] == a[0];
        CompareIsATotalOrder(a[0], b[0], a[0], c);
      }
      forall r ensures r in a[1..] <==> r in b[1..] {
        NotAgain(a, r, c);
        NotAgain(b, r, c);
      }
      RankingIsUnique(a[1..], b[1..], c);
    }
  }

  /** The first row of a sorted sequence does not come again. */
  lemma NotAgain(a: seq<Backup>, r: Backup, c: Collation)
    requires IsCollation(c) && InOrder(a, c) && a != []
    ensures r in a[1..] <==> r in a && r != a[0]
  {
    if r in a[1..] {
      var k :| 0 <= k < |a[1..]| && a[1..][k] == r;
      assert Compare(a[0], a[k + 1], c) < 0;
      CompareIsATotalOrder(r, r, r, c);
    }
    if r in a && r != a[0] {
      var k :| 0 <= k < |a| && a[k] == r;
      assert a[1..][k - 1] == r;
    }
  }

  lemma RankedIgnoresRowOrder(a: seq<Backup>, b: seq<Backup>, c: Collation)
    requires IsCollation(c) && DistinctTees(a) && DistinctTees(b) && SameRows(a, b)
    ensures Ranked(a, c) == Ranked(b, c)
  {
    RankedIsInOrder(a, c);
    RankedIsInOrder(b, c);
    InEither(Ranked(a, c), a);
    InEither(Ranked(b, c), b);
    RankingIsUnique(Ranked(a, c), Ranked(b, c), c);
  }

  lemma {:induction false} StandbyKeepsDistinctTees(rows: seq<Backup>)
    requires DistinctTees(rows)
    ensures DistinctTees(StandbyOnly(rows))
  {
    if rows != [] { StandbyKeepsDistinctTees(rows[1..]); }
  }

  /** The schema's UNIQUE column makes the rows of any SELECT distinct where the tiebreak needs it. */
  lemma ListingHasDistinctTees(rows: seq<Backup>, t: Tables, status: Option<BackupStatus>)
    requires Keyed(t) && BackupListing(rows, t, status)
    ensures DistinctTees(rows)
  {
    forall i, j | 0 <= i < j < |rows| ensures rows[i].tee != rows[j].tee {
      assert rows[i] in rows && rows[j] in rows;
    }
  }

  /** The choice is a standby row ahead of every other standby row, and there is none only when none stands by. */
  lemma SuccessorIsLeast(rows: seq<Backup>, c: Collation)
    requires IsCollation(c) && DistinctTees(rows)
    ensures SelectSuccessor(rows, c) == None <==> forall r <- rows :: r.status != Standby
    ensures SelectSuccessor(rows, c).Some? ==>
              var s := SelectSuccessor(rows, c).value;
              && s in rows && s.status == Standby
              && (forall r <- rows :: r.status == Standby && r != s ==> Compare(s, r, c) < 0 && Ahead(s, r, c))
  {
    var standby := StandbyOnly(rows);
    StandbyKeepsDistinctTees(rows);
    RankedIsInOrder(standby, c);
    InEither(Ranked(standby, c), standby);
    if standby != [] {
      var s := Ranked(standby, c)[0];
      assert s in Ranked(standby, c) && s in standby;
      forall r <- rows | r.status == Standby && r != s ensures Compare(s, r, c) < 0 {
        assert r in standby && r in Ranked(standby, c);
        var k :| 0 <= k < |Ranked(standby, c)| && Ranked(standby, c)[k] == r;
      }
      forall r <- rows { CompareIsAhead(s, r, c); }
    } else {
      forall r <- rows ensures r.status != Standby { assert r !in standby; }
    }
  }
}
