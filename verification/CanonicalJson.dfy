/** `stableStringify`: object members in a fixed order, so that equal texts mean equal values up to key order. */
module CanonicalJson {
  import opened Prelude
  import opened JsonText

  /** Assigning to this key sets an object's prototype instead of creating a member. */
  const PROTO: Text := [0x5F, 0x5F, 0x70, 0x72, 0x6F, 0x74, 0x6F, 0x5F, 0x5F]

  // ----- the two orders on keys -----

  /** By code units: the order of `sort()`. */
  predicate UnitsBefore(a: Text, b: Text) {
    if b == [] then false
    else if a == [] then true
    else a[0] < b[0] || (a[0] == b[0] && UnitsBefore(a[1..], b[1..]))
  }

  /** An array index: canonical decimal text below 2^32 - 1. Such keys come first when an object is enumerated. */
  predicate IsIndex(k: Text) {
    k != [] && (forall i :: 0 <= i < |k| ==> IsDigit(k[i])) && (k[0] == 0x30 ==> |k| == 1) && IndexValue(k) < 0xFFFF_FFFF
  }

  function IndexValue(k: Text): nat {
    if k == [] then 0 else 10 * IndexValue(k[..|k| - 1]) + if IsDigit(k[|k| - 1]) then k[|k| - 1] - 0x30 else 0
  }

  /** The order in which an object whose string keys were assigned in `sort()` order enumerates its keys. */
  predicate Before(a: Text, b: Text) {
    if IsIndex(a) then !IsIndex(b) || IndexValue(a) < IndexValue(b)
    else !IsIndex(b) && UnitsBefore(a, b)
  }

  lemma {:induction false} UnitsOrdered(a: Text, b: Text, c: Text)
    ensures !UnitsBefore(a, a)
    ensures UnitsBefore(a, b) || a == b || UnitsBefore(b, a)
    ensures UnitsBefore(a, b) && UnitsBefore(b, c) ==> UnitsBefore(a, c)
    decreases |a| + |b| + |c|
  {
    var tail := (k: Text) => if k == [] then [] else k[1..];
    if a != [] || b != [] || c != [] {
      UnitsOrdered(tail(a), tail(b), tail(c));
      if a != [] && b != [] && a[1..] == b[1..] && a[0] == b[0] {
        assert a == [a[0]] + a[1..] && b == [b[0]] + b[1..];
      }
    }
  }

  lemma {:induction false} PositiveIndex(k: Text)
    requires k != [] && IsDigit(k[0]) && k[0] != 0x30
    ensures IndexValue(k) > 0
  {
    if |k| > 1 { PositiveIndex(k[..|k| - 1]); }
  }

  lemma LastDigits(x: nat, d: nat, y: nat, e: nat)
    requires 10 * x + d == 10 * y + e && d < 10 && e < 10
    ensures x == y && d == e
  {
  }

  /** Different array indices have different values. */
  lemma {:induction false} IndexIsInjective(a: Text, b: Text)
    requires forall i :: 0 <= i < |a| ==> IsDigit(a[i])
    requires forall i :: 0 <= i < |b| ==> IsDigit(b[i])
    requires (a == [] || a[0] != 0x30) && (b == [] || b[0] != 0x30) && IndexValue(a) == IndexValue(b)
    ensures a == b
  {
    if a == [] {
      if b != [] { PositiveIndex(b); }
    } else if b == [] {
      PositiveIndex(a);
    } else {
      var m, n := |a| - 1, |b| - 1;
      LastDigits(IndexValue(a[..m]), a[m] - 0x30, IndexValue(b[..n]), b[n] - 0x30);
      IndexIsInjective(a[..m], b[..n]);
      assert a == a[..m] + [a[m]] && b == b[..n] + [b[n]];
    }
  }

  lemma IndicesDiffer(a: Text, b: Text)
    requires IsIndex(a) && IsIndex(b) && IndexValue(a) == IndexValue(b)
    ensures a == b
  {
    if a[0] == 0x30 || b[0] == 0x30 {
      if a[0] != 0x30 { PositiveIndex(a); }
      if b[0] != 0x30 { PositiveIndex(b); }
      assert [0x30][..0] == [];
    } else {
      IndexIsInjective(a, b);
    }
  }

  /** The enumeration order is a strict total order on keys. */
  lemma BeforeIsTotal(a: Text, b: Text, c: Text)
    ensures !Before(a, a)
    ensures Before(a, b) || a == b || Before(b, a)
    ensures Before(a, b) && Before(b, c) ==> Before(a, c)
  {
    UnitsOrdered(a, b, c);
    if IsIndex(a) && IsIndex(b) && IndexValue(a) == IndexValue(b) { IndicesDiffer(a, b); }
  }

  // ----- one object -----

  ghost predicate InOrder(ms: seq<Member>) {
    forall i, j :: 0 <= i < j < |ms| ==> Before(ms[i].key, ms[j].key)
  }

  ghost predicate DistinctKeys(ms: seq<Member>) {
    forall i, j :: 0 <= i < j < |ms| ==> ms[i].key != ms[j].key
  }

  /** Where a member belongs in a list that is in order. */
  function Insert(ms: seq<Member>, m: Member): seq<Member> {
    if ms == [] || Before(m.key, ms[0].key) then [m] + ms else [ms[0]] + Insert(ms[1..], m)
  }

  /** The members but `__proto__`, in enumeration order. */
  function Ordered(ms: seq<Member>): seq<Member> {
    if ms == [] then []
    else
      var front, m := Ordered(ms[..|ms| - 1]), ms[|ms| - 1];
      if m.key == PROTO then front else Insert(front, m)
  }

  lemma {:induction false} InsertKeepsOrder(ms: seq<Member>, m: Member)
    requires InOrder(ms) && forall i :: 0 <= i < |ms| ==> ms[i].key != m.key
    ensures InOrder(Insert(ms, m))
    ensures forall x :: x in Insert(ms, m) <==> x == m || x in ms
  {
    if ms != [] {
      BeforeIsTotal(m.key, ms[0].key, m.key);
      if Before(m.key, ms[0].key) {
        forall j | 0 < j < |ms| ensures Before(m.key, ms[j].key) {
          BeforeIsTotal(m.key, ms[0].key, ms[j].key);
        }
      } else {
        var tail := Insert(ms[1..], m);
        InsertKeepsOrder(ms[1..], m);
        forall j | 0 <= j < |tail| ensures Before(ms[0].key, tail[j].key) {
          assert tail[j] in tail;
        }
        assert ms == [ms[0]] + ms[1..];
      }
    }
  }

  lemma {:induction false} OrderedIsInOrder(ms: seq<Member>)
    requires DistinctKeys(ms)
    ensures InOrder(Ordered(ms))
    ensures forall x :: x in Ordered(ms) <==> x in ms && x.key != PROTO
  {
    if ms != [] {
      var n := |ms| - 1;
      var front, m := Ordered(ms[..n]), ms[n];
      OrderedIsInOrder(ms[..n]);
      assert ms == ms[..n] + [m];
      if m.key != PROTO {
        forall i | 0 <= i < |front| ensures front[i].key != m.key {
          assert front[i] in front;
          assert front[i] in ms[..n];
        }
        InsertKeepsOrder(front, m);
      }
    }
  }

  lemma HeadsAgree(a: seq<Member>, b: seq<Member>)
    requires a != [] && b != [] && InOrder(a) && InOrder(b) && a[0] in b && b[0] in a
    ensures a[0] == b[0]
  {
    if a[0] != b[0] {
      var i :| 0 <= i < |a| && a[i] == b[0];
      var j :| 0 <= j < |b| && b[j] == a[0];
      BeforeIsTotal(a[0].key, b[0].key, a[0].key);
    }
  }

  /** Lists in order with the same members are equal: the order of the source object leaves no trace. */
  lemma {:induction false} OrderIsUnique(a: seq<Member>, b: seq<Member>)
    requires InOrder(a) && InOrder(b) && forall x :: x in a <==> x in b
    ensures a == b
  {
    assert a != [] ==> a[0] in a;
    assert b != [] ==> b[0] in b;
    if a != [] {
      HeadsAgree(a, b);
      assert a == [a[0]] + a[1..] && b == [b[0]] + b[1..];
      BeforeIsTotal(a[0].key, a[0].key, a[0].key);
      forall x ensures x in a[1..] <==> x in b[1..] {
        assert a[0] !in a[1..] && b[0] !in b[1..];
        assert x in a <==> x == a[0] || x in a[1..];
        assert x in b <==> x == b[0] || x in b[1..];
      }
      OrderIsUnique(a[1..], b[1..]);
    }
  }

  // ----- the replacer -----

  /** `sorted[k] = v` on an ordinary object without that key: indices go among the indices, other keys to the end. */
  function Assign(ms: seq<Member>, m: Member): seq<Member> {
    if m.key == PROTO then ms
    else if !IsIndex(m.key) then ms + [m]
    else if ms != [] && IsIndex(ms[0].key) && IndexValue(ms[0].key) < IndexValue(m.key) then [ms[0]] + Assign(ms[1..], m)
    else [m] + ms
  }

  ghost predicate SortedByUnits(keys: seq<Text>) {
    forall i, j :: 0 <= i < j < |keys| ==> UnitsBefore(keys[i], keys[j])
  }

  ghost predicate HasKey(ms: seq<Member>, key: Text) {
    exists i :: 0 <= i < |ms| && ms[i].key == key
  }

  /** `value[k]`. */
  function Lookup(ms: seq<Member>, key: Text): Json
    requires HasKey(ms, key)
  {
    if ms[0].key == key then ms[0].value else Lookup(ms[1..], key)
  }

  lemma {:induction false} LookupFinds(ms: seq<Member>, key: Text)
    requires HasKey(ms, key)
    ensures Member(key, Lookup(ms, key)) in ms
  {
    if ms[0].key != key {
      assert ms == [ms[0]] + ms[1..];
      LookupFinds(ms[1..], key);
    }
  }

  lemma {:induction false} AssignIsInsert(ms: seq<Member>, m: Member)
    requires InOrder(ms) && m.key != PROTO
    requires forall i :: 0 <= i < |ms| ==> UnitsBefore(ms[i].key, m.key)
    ensures Assign(ms, m) == Insert(ms, m)
  {
    if ms == [] {
    } else {
      BeforeIsTotal(ms[0].key, m.key, ms[0].key);
      UnitsOrdered(ms[0].key, m.key, ms[0].key);
      AssignIsInsert(ms[1..], m);
      if !IsIndex(m.key) {
        assert ms + [m] == [ms[0]] + (ms[1..] + [m]);
      }
    }
  }

  /** `sortedReplacer` on an object; `keys` is `Object.keys(value).sort()`, the result what `sorted` enumerates. */
  method SortedReplacer(members: seq<Member>, keys: seq<Text>) returns (sorted: seq<Member>)
    requires DistinctKeys(members) && SortedByUnits(keys) && forall k :: k in keys <==> HasKey(members, k)
    ensures sorted == Ordered(members)
  {
    sorted := [];
    ghost var done: seq<Member> := [];
    var i := 0;
    while i < |keys|
      invariant 0 <= i <= |keys| && |done| == i && sorted == Ordered(done)
      invariant forall j :: 0 <= j < i ==> done[j].key == keys[j] && done[j] in members
    {
      assert keys[i] in keys;
      var m := Member(keys[i], Lookup(members, keys[i]));
      LookupFinds(members, keys[i]);
      Assigning(done, m, keys);
      done := done + [m];
      sorted := Assign(sorted, m);
      i := i + 1;
    }
    Exhausted(members, keys, done);
  }

  /** One iteration: assigning the next key in `sort()` order is inserting it in enumeration order. */
  lemma Assigning(done: seq<Member>, m: Member, keys: seq<Text>)
    requires |done| < |keys| && SortedByUnits(keys) && m.key == keys[|done|]
    requires forall j :: 0 <= j < |done| ==> done[j].key == keys[j]
    ensures Ordered(done + [m]) == Assign(Ordered(done), m)
  {
    var front := Ordered(done);
    assert (done + [m])[..|done|] == done;
    forall i, j | 0 <= i < j < |done| ensures done[i].key != done[j].key {
      UnitsOrdered(keys[i], keys[j], keys[i]);
    }
    OrderedIsInOrder(done);
    forall j | 0 <= j < |front| ensures UnitsBefore(front[j].key, m.key) {
      assert front[j] in front;
      var d :| 0 <= d < |done| && done[d] == front[j];
    }
    if m.key != PROTO { AssignIsInsert(front, m); }
  }

  /** After the last key, the members assigned are the object's members. */
  lemma Exhausted(members: seq<Member>, keys: seq<Text>, done: seq<Member>)
    requires DistinctKeys(members) && SortedByUnits(keys) && forall k :: k in keys <==> HasKey(members, k)
    requires |done| == |keys| && forall j :: 0 <= j < |done| ==> done[j].key == keys[j] && done[j] in members
    ensures Ordered(done) == Ordered(members)
  {
    forall i, j | 0 <= i < j < |done| ensures done[i].key != done[j].key {
      UnitsOrdered(keys[i], keys[j], keys[i]);
    }
    forall x | x in members ensures x in done {
      var i :| 0 <= i < |members| && members[i] == x;
      assert HasKey(members, x.key);
      assert x.key in keys;
      var j :| 0 <= j < |keys| && keys[j] == x.key;
      var n :| 0 <= n < |members| && members[n] == done[j];
      assert n == i;
      assert done[j] in done;
    }
    OrderedIsInOrder(done);
    OrderedIsInOrder(members);
    OrderIsUnique(Ordered(done), Ordered(members));
  }

  // ----- whole values -----

  /** The replacer has been applied to the value and to everything in it. */
  function Canon(v: Json): Json
    decreases v
  {
    match v
    case Arr(items) => Arr(CanonItems(items))
    case Obj(members) => Obj(Ordered(CanonMembers(members)))
    case _ => v
  }

  function CanonItems(items: seq<Json>): seq<Json>
    decreases items
  {
    if items == [] then [] else [Canon(items[0])] + CanonItems(items[1..])
  }

  function CanonMembers(members: seq<Member>): seq<Member>
    decreases members
  {
    if members == [] then []
    else [Member(members[0].key, Canon(members[0].value))] + CanonMembers(members[1..])
  }

  lemma {:induction false} CanonOfInsert(ms: seq<Member>, m: Member)
    ensures CanonMembers(Insert(ms, m)) == Insert(CanonMembers(ms), Member(m.key, Canon(m.value)))
  {
    if ms == [] || Before(m.key, ms[0].key) {
      assert ([m] + ms)[1..] == ms;
    } else {
      CanonOfInsert(ms[1..], m);
      assert ([ms[0]] + Insert(ms[1..], m))[1..] == Insert(ms[1..], m);
    }
  }

  /** The replacer meets an object before its members, which comes to the same as after them. */
  lemma {:induction false} OutsideIn(ms: seq<Member>)
    ensures CanonMembers(Ordered(ms)) == Ordered(CanonMembers(ms))
  {
    if ms != [] {
      var n := |ms| - 1;
      OutsideIn(ms[..n]);
      CanonMembersAt(ms);
      CanonMembersAt(ms[..n]);
      assert CanonMembers(ms)[..n] == CanonMembers(ms[..n]);
      if ms[n].key != PROTO { CanonOfInsert(Ordered(ms[..n]), ms[n]); }
    }
  }

  function StableStringify(v: Json): Text {
    Print(Canon(v))
  }

  /** A JavaScript value: numbers print as numbers, and an object has each key once. */
  ghost predicate WellFormed(v: Json)
    decreases v
  {
    match v
    case Num(lexeme) => IsNumber(lexeme)
    case Arr(items) => forall i :: 0 <= i < |items| ==> WellFormed(items[i])
    case Obj(members) => DistinctKeys(members) && forall i :: 0 <= i < |members| ==> WellFormed(members[i].value)
    case _ => true
  }

  /** Equal up to key order at every depth, members under an `ignored` key left aside. */
  ghost predicate Same(a: Json, b: Json, ignored: set<Text>)
    decreases a
  {
    match a
    case Arr(items) =>
      b.Arr? && |items| == |b.items| && forall i :: 0 <= i < |items| ==> Same(items[i], b.items[i], ignored)
    case Obj(members) =>
      && b.Obj?
      && (forall key :: key !in ignored ==> (HasKey(members, key) <==> HasKey(b.members, key)))
      && (forall i, j :: 0 <= i < |members| && 0 <= j < |b.members| && members[i].key == b.members[j].key && members[i].key !in ignored
            ==> Same(members[i].value, b.members[j].value, ignored))
    case _ => a == b
  }

  lemma {:induction false} CanonItemsAt(items: seq<Json>)
    ensures |CanonItems(items)| == |items| && forall i :: 0 <= i < |items| ==> CanonItems(items)[i] == Canon(items[i])
  {
    if items != [] { CanonItemsAt(items[1..]); }
  }

  lemma {:induction false} CanonMembersAt(members: seq<Member>)
    ensures |CanonMembers(members)| == |members|
    ensures forall i :: 0 <= i < |members| ==> CanonMembers(members)[i] == Member(members[i].key, Canon(members[i].value))
  {
    if members != [] { CanonMembersAt(members[1..]); }
  }

  lemma {:induction false} CanonIsPrintable(v: Json)
    requires WellFormed(v)
    ensures Printable(Canon(v))
    decreases v
  {
    match v
    case Arr(items) =>
      CanonItemsAt(items);
      forall i | 0 <= i < |items| ensures Printable(Canon(items[i])) { CanonIsPrintable(items[i]); }
    case Obj(members) =>
      CanonMembersAt(members);
      var ms := CanonMembers(members);
      OrderedIsInOrder(ms);
      forall i | 0 <= i < |members| ensures Printable(ms[i].value) { CanonIsPrintable(members[i].value); }
      forall i | 0 <= i < |Ordered(ms)| ensures Printable(Ordered(ms)[i].value) {
        assert Ordered(ms)[i] in Ordered(ms);
      }
    case _ =>
  }

  /** Two objects come out alike exactly when their members do, key by key. */
  lemma ObjectsAgree(a: seq<Member>, b: seq<Member>)
    requires DistinctKeys(a) && DistinctKeys(b)
    ensures Ordered(a) == Ordered(b) <==> forall x: Member :: x.key != PROTO ==> (x in a <==> x in b)
  {
    OrderedIsInOrder(a);
    OrderedIsInOrder(b);
    if forall x: Member :: x.key != PROTO ==> (x in a <==> x in b) {
      OrderIsUnique(Ordered(a), Ordered(b));
    }
  }

  /** Wherever two objects have a member under the same key, the canonical forms decide whether the values agree. */
  ghost predicate ValuesDecided(a: seq<Member>, b: seq<Member>) {
    forall i, j :: 0 <= i < |a| && 0 <= j < |b| && a[i].key == b[j].key && a[i].key != PROTO ==>
      (Canon(a[i].value) == Canon(b[j].value) <==> Same(a[i].value, b[j].value, {PROTO}))
  }

  lemma AgreeingMembersAreSame(a: seq<Member>, b: seq<Member>)
    requires DistinctKeys(a) && DistinctKeys(b) && ValuesDecided(a, b)
    requires forall x: Member :: x.key != PROTO ==> (x in CanonMembers(a) <==> x in CanonMembers(b))
    ensures Same(Obj(a), Obj(b), {PROTO})
  {
    var ca, cb := CanonMembers(a), CanonMembers(b);
    CanonMembersAt(a);
    CanonMembersAt(b);
    forall i | 0 <= i < |a| && a[i].key != PROTO ensures exists j :: 0 <= j < |b| && cb[j] == ca[i] {
      assert ca[i] in ca;
    }
    forall j | 0 <= j < |b| && b[j].key != PROTO ensures exists i :: 0 <= i < |a| && ca[i] == cb[j] {
      assert cb[j] in cb;
    }
  }

  lemma SameMembersAgree(a: seq<Member>, b: seq<Member>, x: Member)
    requires ValuesDecided(a, b) && Same(Obj(a), Obj(b), {PROTO})
    requires x.key != PROTO && x in CanonMembers(a)
    ensures x in CanonMembers(b)
  {
    CanonMembersAt(a);
    CanonMembersAt(b);
    var i :| 0 <= i < |a| && CanonMembers(a)[i] == x;
    assert HasKey(a, x.key);
    var j :| 0 <= j < |b| && b[j].key == x.key;
    assert CanonMembers(b)[j] == x;
  }

  lemma SameIsSymmetric(a: seq<Member>, b: seq<Member>)
    requires ValuesDecided(a, b) && Same(Obj(a), Obj(b), {PROTO})
    ensures forall x: Member :: x.key != PROTO && x in CanonMembers(b) ==> x in CanonMembers(a)
  {
    CanonMembersAt(a);
    CanonMembersAt(b);
    forall x: Member | x.key != PROTO && x in CanonMembers(b) ensures x in CanonMembers(a) {
      var j :| 0 <= j < |b| && CanonMembers(b)[j] == x;
      assert HasKey(b, x.key);
      var i :| 0 <= i < |a| && a[i].key == x.key;
      assert CanonMembers(a)[i] == x;
    }
  }

  lemma {:induction false} ArraysDecided(a: seq<Json>, b: seq<Json>)
    requires |a| == |b| ==> forall i :: 0 <= i < |a| ==> (Canon(a[i]) == Canon(b[i]) <==> Same(a[i], b[i], {PROTO}))
    ensures Canon(Arr(a)) == Canon(Arr(b)) <==> Same(Arr(a), Arr(b), {PROTO})
  {
    CanonItemsAt(a);
    CanonItemsAt(b);
    if Same(Arr(a), Arr(b), {PROTO}) {
      assert CanonItems(a) == CanonItems(b);
    } else if Canon(Arr(a)) == Canon(Arr(b)) {
      forall i | 0 <= i < |a| ensures Same(a[i], b[i], {PROTO}) {
        assert CanonItems(a)[i] == CanonItems(b)[i];
      }
    }
  }

  lemma ObjectsDecided(a: seq<Member>, b: seq<Member>)
    requires DistinctKeys(a) && DistinctKeys(b) && ValuesDecided(a, b)
    ensures Canon(Obj(a)) == Canon(Obj(b)) <==> Same(Obj(a), Obj(b), {PROTO})
  {
    CanonMembersAt(a);
    CanonMembersAt(b);
    ObjectsAgree(CanonMembers(a), CanonMembers(b));
    if Same(Obj(a), Obj(b), {PROTO}) {
      forall x: Member | x.key != PROTO && x in CanonMembers(a) ensures x in CanonMembers(b) {
        SameMembersAgree(a, b, x);
      }
      SameIsSymmetric(a, b);
    } else if Canon(Obj(a)) == Canon(Obj(b)) {
      AgreeingMembersAreSame(a, b);
    }
  }

  /** The canonical form is equal exactly for values equal up to key order, `__proto__` members aside. */
  lemma {:induction false} CanonDecides(a: Json, b: Json)
    requires WellFormed(a) && WellFormed(b)
    ensures Canon(a) == Canon(b) <==> Same(a, b, {PROTO})
    decreases a
  {
    match a
    case Arr(items) =>
      if b.Arr? {
        if |items| == |b.items| {
          forall i | 0 <= i < |items|
            ensures Canon(items[i]) == Canon(b.items[i]) <==> Same(items[i], b.items[i], {PROTO})
          {
            CanonDecides(items[i], b.items[i]);
          }
        }
        ArraysDecided(items, b.items);
      }
    case Obj(members) =>
      if b.Obj? {
        forall i, j | 0 <= i < |members| && 0 <= j < |b.members|
          ensures Canon(members[i].value) == Canon(b.members[j].value) <==> Same(members[i].value, b.members[j].value, {PROTO})
        {
          CanonDecides(members[i].value, b.members[j].value);
        }
        ObjectsDecided(members, b.members);
      }
    case _ =>
  }

  /**
    Equal texts, exactly: `stableStringify` gives the same text for two values just when they are equal up to
    key order at every depth, members called `__proto__` left aside.
   */
  lemma EqualTextsExactly(a: Json, b: Json)
    requires WellFormed(a) && WellFormed(b)
    ensures StableStringify(a) == StableStringify(b) <==> Same(a, b, {PROTO})
  {
    CanonIsPrintable(a);
    CanonIsPrintable(b);
    if StableStringify(a) == StableStringify(b) { PrintIsInjective(Canon(a), Canon(b)); }
    CanonDecides(a, b);
  }

  // ----- `__proto__` -----

  /** No object at any depth has a member called `__proto__`. */
  predicate ProtoFree(v: Json)
    decreases v
  {
    match v
    case Arr(items) => forall i :: 0 <= i < |items| ==> ProtoFree(items[i])
    case Obj(members) => forall i :: 0 <= i < |members| ==> members[i].key != PROTO && ProtoFree(members[i].value)
    case _ => true
  }

  /** The value without its `__proto__` members. */
  function Stripped(v: Json): Json
    decreases v
  {
    match v
    case Arr(items) => Arr(StrippedItems(items))
    case Obj(members) => Obj(StrippedMembers(members))
    case _ => v
  }

  function StrippedItems(items: seq<Json>): seq<Json>
    decreases items
  {
    if items == [] then [] else [Stripped(items[0])] + StrippedItems(items[1..])
  }

  function StrippedMembers(members: seq<Member>): seq<Member>
    decreases members
  {
    if members == [] then []
    else
      (if members[0].key == PROTO then [] else [Member(members[0].key, Stripped(members[0].value))])
      + StrippedMembers(members[1..])
  }

  lemma {:induction false} StrippedItemsAt(items: seq<Json>)
    ensures |StrippedItems(items)| == |items|
    ensures forall i :: 0 <= i < |items| ==> StrippedItems(items)[i] == Stripped(items[i])
  {
    if items != [] { StrippedItemsAt(items[1..]); }
  }

  lemma {:induction false} StrippedMembersAre(members: seq<Member>)
    ensures forall x :: x in StrippedMembers(members) <==>
              exists i :: 0 <= i < |members| && members[i].key != PROTO && x == Member(members[i].key, Stripped(members[i].value))
  {
    if members != [] {
      StrippedMembersAre(members[1..]);
      assert members == [members[0]] + members[1..];
    }
  }

  lemma {:induction false} StrippedKeysAreDistinct(members: seq<Member>)
    requires DistinctKeys(members)
    ensures DistinctKeys(StrippedMembers(members))
  {
    if members != [] {
      var rest := StrippedMembers(members[1..]);
      StrippedKeysAreDistinct(members[1..]);
      StrippedMembersAre(members[1..]);
      forall j | 0 <= j < |rest| ensures rest[j].key != members[0].key { assert rest[j] in rest; }
    }
  }

  /** Without its `__proto__` members a value is well formed, prints the same, and equals itself only if it had none. */
  ghost predicate Unseen(v: Json) {
    && WellFormed(Stripped(v)) && ProtoFree(Stripped(v)) && Same(v, Stripped(v), {PROTO})
    && (Same(v, Stripped(v), {}) ==> ProtoFree(v))
  }

  lemma {:induction false} StrippingIsUnseen(v: Json)
    requires WellFormed(v)
    ensures Unseen(v)
    decreases v
  {
    match v
    case Arr(items) =>
      StrippedItemsAt(items);
      forall i | 0 <= i < |items| ensures Unseen(items[i]) { StrippingIsUnseen(items[i]); }
    case Obj(members) =>
      forall i | 0 <= i < |members| ensures Unseen(members[i].value) { StrippingIsUnseen(members[i].value); }
      StrippedIsWellFormed(members);
      StrippedIsSame(members);
      SameNeedsProtoFree(members);
    case _ =>
  }

  ghost predicate ComesFrom(x: Member, m: Member) {
    m.key != PROTO && x == Member(m.key, Stripped(m.value))
  }

  lemma StrippedSource(members: seq<Member>, j: nat) returns (i: nat)
    requires j < |StrippedMembers(members)|
    ensures i < |members| && ComesFrom(StrippedMembers(members)[j], members[i])
  {
    StrippedMembersAre(members);
    assert StrippedMembers(members)[j] in StrippedMembers(members);
    i :| 0 <= i < |members| && ComesFrom(StrippedMembers(members)[j], members[i]);
  }

  lemma StrippedTarget(members: seq<Member>, i: nat) returns (j: nat)
    requires i < |members| && members[i].key != PROTO
    ensures j < |StrippedMembers(members)| && ComesFrom(StrippedMembers(members)[j], members[i])
  {
    StrippedMembersAre(members);
    assert Member(members[i].key, Stripped(members[i].value)) in StrippedMembers(members);
    j :| 0 <= j < |StrippedMembers(members)| && ComesFrom(StrippedMembers(members)[j], members[i]);
  }

  lemma StrippedIsWellFormed(members: seq<Member>)
    requires DistinctKeys(members) && forall i :: 0 <= i < |members| ==> Unseen(members[i].value)
    ensures WellFormed(Stripped(Obj(members))) && ProtoFree(Stripped(Obj(members)))
  {
    StrippedKeysAreDistinct(members);
    forall j | 0 <= j < |StrippedMembers(members)|
      ensures var x := StrippedMembers(members)[j]; WellFormed(x.value) && ProtoFree(x.value) && x.key != PROTO
    {
      var i := StrippedSource(members, j);
      assert Unseen(members[i].value);
    }
  }

  lemma StrippedIsSame(members: seq<Member>)
    requires DistinctKeys(members) && forall i :: 0 <= i < |members| ==> Unseen(members[i].value)
    ensures Same(Obj(members), Stripped(Obj(members)), {PROTO})
  {
    var own := StrippedMembers(members);
    forall i | 0 <= i < |members| && members[i].key != PROTO ensures HasKey(own, members[i].key) {
      var j := StrippedTarget(members, i);
    }
    forall j | 0 <= j < |own| ensures HasKey(members, own[j].key) {
      var i := StrippedSource(members, j);
    }
    forall i, j | 0 <= i < |members| && 0 <= j < |own| && members[i].key == own[j].key
      ensures Same(members[i].value, own[j].value, {PROTO})
    {
      var k := StrippedSource(members, j);
      assert k == i;
      assert Unseen(members[i].value);
    }
  }

  lemma SameNeedsProtoFree(members: seq<Member>)
    requires forall i :: 0 <= i < |members| ==> Unseen(members[i].value)
    ensures Same(Obj(members), Stripped(Obj(members)), {}) ==> ProtoFree(Obj(members))
  {
    var own := StrippedMembers(members);
    if Same(Obj(members), Obj(own), {}) {
      forall i | 0 <= i < |members| ensures members[i].key != PROTO && ProtoFree(members[i].value) {
        assert HasKey(members, members[i].key);
        assert HasKey(own, members[i].key);
        var n :| 0 <= n < |own| && own[n].key == members[i].key;
        var source := StrippedSource(members, n);
        var j := StrippedTarget(members, i);
        assert Same(members[i].value, own[j].value, {});
        assert Unseen(members[i].value);
      }
    }
  }

  lemma {:induction false} NothingToIgnore(a: Json, b: Json)
    requires ProtoFree(a) && ProtoFree(b)
    ensures Same(a, b, {PROTO}) <==> Same(a, b, {})
    decreases a
  {
    match a
    case Arr(items) =>
      if b.Arr? && |items| == |b.items| {
        forall i | 0 <= i < |items| { NothingToIgnore(items[i], b.items[i]); }
      }
    case Obj(members) =>
      if b.Obj? {
        forall i, j | 0 <= i < |members| && 0 <= j < |b.members| { NothingToIgnore(members[i].value, b.members[j].value); }
        assert !HasKey(members, PROTO) && !HasKey(b.members, PROTO);
      }
    case _ =>
  }

  /** Values without `__proto__` members have equal texts exactly when they are equal up to key order at every depth. */
  lemma EqualTextsMeanEqualValues(a: Json, b: Json)
    requires WellFormed(a) && WellFormed(b) && ProtoFree(a) && ProtoFree(b)
    ensures StableStringify(a) == StableStringify(b) <==> Same(a, b, {})
  {
    EqualTextsExactly(a, b);
    NothingToIgnore(a, b);
  }

  /** The text of `v` belongs, among values without `__proto__`, to nothing but `v` up to key order. */
  ghost predicate Identifies(v: Json) {
    forall b :: WellFormed(b) && ProtoFree(b) && StableStringify(b) == StableStringify(v) ==> Same(v, b, {})
  }

  /** The canonical text identifies a value exactly when no object in it has a member called `__proto__`. */
  lemma IdentifiesExactly(v: Json)
    requires WellFormed(v)
    ensures Identifies(v) <==> ProtoFree(v)
  {
    if ProtoFree(v) {
      forall b | WellFormed(b) && ProtoFree(b) && StableStringify(b) == StableStringify(v) ensures Same(v, b, {}) {
        EqualTextsMeanEqualValues(v, b);
      }
    } else {
      StrippingIsUnseen(v);
      EqualTextsExactly(v, Stripped(v));
    }
  }

  // ----- the text itself -----

  /** The first unit in which the two differ decides; a text comes before its extensions. */
  ghost predicate LessUnits(a: Text, b: Text) {
    exists k :: 0 <= k <= |a| && k < |b| && a[..k] == b[..k] && (k == |a| || a[k] < b[k])
  }

  lemma {:induction false} UnitsBeforeExactly(a: Text, b: Text)
    ensures UnitsBefore(a, b) <==> LessUnits(a, b)
  {
    if b != [] && a != [] {
      UnitsBeforeExactly(a[1..], b[1..]);
      if UnitsBefore(a, b) && a[0] == b[0] {
        var k :| 0 <= k <= |a[1..]| && k < |b[1..]| && a[1..][..k] == b[1..][..k] && (k == |a[1..]| || a[1..][k] < b[1..][k]);
        assert a[..k + 1] == [a[0]] + a[1..][..k] && b[..k + 1] == [b[0]] + b[1..][..k];
      }
      if k :| 0 < k <= |a| && k < |b| && a[..k] == b[..k] && (k == |a| || a[k] < b[k]) {
        assert a[0] == a[..k][0] && b[0] == b[..k][0];
        assert a[1..][..k - 1] == a[..k][1..] && b[1..][..k - 1] == b[..k][1..];
      }
      if a[0] < b[0] { assert a[..0] == b[..0]; }
    } else if b != [] {
      assert a[..0] == b[..0];
    }
  }

  function Joined(parts: seq<Text>): Text {
    if parts == [] then [] else if |parts| == 1 then parts[0] else parts[0] + [0x2C] + Joined(parts[1..])
  }

  /** `"key":value` */
  function MemberText(m: Member): Text {
    [0x22] + Body(m.key) + [0x22, 0x3A] + StableStringify(m.value)
  }

  function MemberTexts(ms: seq<Member>): (ts: seq<Text>)
    ensures |ts| == |ms| && forall i :: 0 <= i < |ms| ==> ts[i] == MemberText(ms[i])
  {
    if ms == [] then [] else [MemberText(ms[0])] + MemberTexts(ms[1..])
  }

  lemma PrintedMember(m: Member)
    ensures PrintMember(Member(m.key, Canon(m.value))) == MemberText(m)
  {
    assert Quoted(m.key) + [COLON] == [0x22] + Body(m.key) + [0x22, 0x3A];
  }

  lemma {:induction false} PrintedMembers(ms: seq<Member>)
    ensures PrintMembers(CanonMembers(ms)) == (if ms == [] then [] else [0x2C] + Joined(MemberTexts(ms))) + [0x7D]
  {
    if ms != [] {
      PrintedMembers(ms[1..]);
      PrintedMember(ms[0]);
      assert MemberTexts(ms)[1..] == MemberTexts(ms[1..]);
    }
  }

  lemma PrintedObject(ms: seq<Member>)
    ensures Print(Obj(CanonMembers(ms))) == [0x7B] + Joined(MemberTexts(ms)) + [0x7D]
  {
    if ms != [] {
      PrintedMembers(ms[1..]);
      PrintedMember(ms[0]);
      assert CanonMembers(ms)[0] == Member(ms[0].key, Canon(ms[0].value)) && CanonMembers(ms)[1..] == CanonMembers(ms[1..]);
      assert MemberTexts(ms)[1..] == MemberTexts(ms[1..]);
    }
  }

  /** The decimal text of a number. */
  function DecimalText(n: nat): Text {
    if n < 10 then [0x30 + n] else DecimalText(n / 10) + [0x30 + n % 10]
  }

  lemma {:induction false} DecimalTextIsIndex(n: nat)
    ensures var k := DecimalText(n);
            && k != [] && (forall i :: 0 <= i < |k| ==> IsDigit(k[i])) && (k[0] == 0x30 ==> |k| == 1)
            && IndexValue(k) == n && (k[0] == 0x30 ==> n == 0)
  {
    var k := DecimalText(n);
    assert k[..|k| - 1] == if n < 10 then [] else DecimalText(n / 10);
    if n >= 10 { DecimalTextIsIndex(n / 10); }
  }

  predicate NamesIndex(k: Text, n: nat) {
    n < 0xFFFF_FFFF && k == DecimalText(n)
  }

  /** Array indices are the decimal texts of the numbers below 2^32 - 1. */
  lemma IsIndexExactly(k: Text)
    ensures IsIndex(k) <==> exists n: nat :: NamesIndex(k, n)
    ensures IsIndex(k) ==> NamesIndex(k, IndexValue(k))
  {
    if IsIndex(k) {
      DecimalTextIsIndex(IndexValue(k));
      IndicesDiffer(k, DecimalText(IndexValue(k)));
      assert NamesIndex(k, IndexValue(k));
    } else if n: nat :| NamesIndex(k, n) {
      DecimalTextIsIndex(n);
      assert false;
    }
  }

  /** Array indices come first and by their value, other keys by their code units. */
  ghost predicate LessKey(a: Text, b: Text) {
    if exists m: nat :: NamesIndex(a, m) then forall m: nat, n: nat :: NamesIndex(a, m) && NamesIndex(b, n) ==> m < n
    else (forall n: nat :: !NamesIndex(b, n)) && LessUnits(a, b)
  }

  lemma BeforeIsLess(a: Text, b: Text)
    requires Before(a, b)
    ensures LessKey(a, b)
  {
    IsIndexExactly(a);
    IsIndexExactly(b);
    UnitsBeforeExactly(a, b);
    forall m: nat { DecimalTextIsIndex(m); }
  }

  /**
    An object prints in braces, its members but `__proto__` separated by commas: array indices in ascending
    order, then the other keys in ascending order of their code units.
   */
  lemma ObjectText(ms: seq<Member>) returns (sorted: seq<Member>)
    requires DistinctKeys(ms)
    ensures forall m :: m in sorted <==> m in ms && m.key != PROTO
    ensures forall i, j :: 0 <= i < j < |sorted| ==> LessKey(sorted[i].key, sorted[j].key)
    ensures StableStringify(Obj(ms)) == [0x7B] + Joined(MemberTexts(sorted)) + [0x7D]
  {
    sorted := Ordered(ms);
    OrderedIsInOrder(ms);
    OutsideIn(ms);
    forall i, j | 0 <= i < j < |sorted| ensures LessKey(sorted[i].key, sorted[j].key) {
      BeforeIsLess(sorted[i].key, sorted[j].key);
    }
    PrintedObject(sorted);
  }

  // ----- the words and the escapes -----

  /** The units of a text of ASCII characters. */
  function Ascii(s: string): (t: Text)
    requires forall i :: 0 <= i < |s| ==> s[i] < '\U{80}'
    ensures |t| == |s| && forall i :: 0 <= i < |s| ==> t[i] == s[i] as nat
  {
    if s == "" then [] else [s[0] as nat] + Ascii(s[1..])
  }

  /** Values without members print as they are written in JSON. */
  lemma WordsAreJson(lexeme: Text)
    ensures StableStringify(Null) == Ascii("null") && StableStringify(True) == Ascii("true")
    ensures StableStringify(False) == Ascii("false") && StableStringify(Num(lexeme)) == lexeme
    ensures StableStringify(Arr([])) == Ascii("[]") && StableStringify(Obj([])) == Ascii("{}")
  {
    assert CanonItems([]) == [] && CanonMembers([]) == [] && Ordered([]) == [];
  }

  /** An array prints in brackets, its items separated by commas, in their order. */
  lemma {:induction false} PrintedItems(items: seq<Json>)
    ensures PrintItems(CanonItems(items)) == (if items == [] then [] else [0x2C] + Joined(ItemTexts(items))) + [0x5D]
  {
    if items != [] {
      PrintedItems(items[1..]);
      assert ItemTexts(items)[1..] == ItemTexts(items[1..]);
    }
  }

  function ItemTexts(items: seq<Json>): (ts: seq<Text>)
    ensures |ts| == |items| && forall i :: 0 <= i < |items| ==> ts[i] == StableStringify(items[i])
  {
    if items == [] then [] else [StableStringify(items[0])] + ItemTexts(items[1..])
  }

  lemma JoinedSplits(first: Text, more: seq<Text>)
    ensures Joined([first] + more) == first + if more == [] then [] else [0x2C] + Joined(more)
  {
    assert ([first] + more)[1..] == more;
  }

  lemma Bracketed(first: Text, tail: Text)
    ensures [0x5B] + (first + (tail + [0x5D])) == [0x5B] + (first + tail) + [0x5D]
  {
  }

  lemma ArrayText(items: seq<Json>)
    ensures StableStringify(Arr(items)) == [0x5B] + Joined(ItemTexts(items)) + [0x5D]
  {
    if items == [] {
      assert CanonItems(items) == [] && [0x5B] + [] == [0x5B];
    } else {
      var more := ItemTexts(items[1..]);
      var tail: Text := if more == [] then [] else [0x2C] + Joined(more);
      PrintedItems(items[1..]);
      JoinedSplits(StableStringify(items[0]), more);
      Bracketed(StableStringify(items[0]), tail);
      assert CanonItems(items)[0] == Canon(items[0]) && CanonItems(items)[1..] == CanonItems(items[1..]);
    }
  }

  /** A string of unescaped units prints in quotes as it is. */
  lemma {:induction false} PlainBody(s: Text)
    requires forall i :: 0 <= i < |s| ==> 0x20 <= s[i] < 0xD800 && s[i] != 0x22 && s[i] != 0x5C
    ensures Body(s) == s && StableStringify(Str(s)) == [0x22] + s + [0x22]
  {
    if s != [] { PlainBody(s[1..]); }
  }

  lemma OneUnit(u: Unit)
    ensures Body([u]) == Escaped(u)
  {
    assert [u][1..] == [];
  }

  /** The escapes with a letter of their own: quote, backslash, \b, \f, \n, \r and \t. */
  lemma LetterEscapes()
    ensures Body([0x22]) == [0x5C, 0x22] && Body([0x5C]) == [0x5C, 0x5C]
    ensures Body([0x08]) == [0x5C, 0x62] && Body([0x0C]) == [0x5C, 0x66] && Body([0x0A]) == [0x5C, 0x6E]
    ensures Body([0x0D]) == [0x5C, 0x72] && Body([0x09]) == [0x5C, 0x74]
  {
    forall u: Unit { OneUnit(u); }
  }

  /** The other control characters and lone surrogates: \u and four lower-case hexadecimal digits. */
  lemma HexEscapes(u: Unit)
    requires (u < 0x20 && Letter(u) == None) || 0xD800 <= u < 0xE000
    ensures var d := (k: nat) => if k < 10 then 0x30 + k else 0x57 + k;
            Body([u]) == [0x5C, 0x75, d(u / 0x1000), d(u / 0x100 % 16), d(u / 16 % 16), d(u % 16)]
  {
    OneUnit(u);
    assert u / 16 / 16 == u / 0x100 && u / 0x100 / 16 == u / 0x1000;
  }
}
