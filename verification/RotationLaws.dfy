/** What the rotation loop guarantees, whichever guardians fail. */
module RotationLaws {
  import opened Prelude
  import opened Crypto
  import opened ProtocolState
  import opened SequenceNumbers
  import opened Rotation
  import Succession
  import SuccessionLaws
  import Snap = Snapshots
  import SnapshotLaws

  function TriedIn(log: seq<Entry>): seq<Guardian> {
    if log == [] then [] else (if log[0].Tried? then [log[0].guardian] else []) + TriedIn(log[1..])
  }

  /** The numbers of the snapshots sent, in order. */
  function NumbersIn(log: seq<Entry>): seq<Number> {
    if log == [] then []
    else (if log[0].Shipped? then [log[0].shipment.snapshot.sequenceNum] else []) + NumbersIn(log[1..])
  }

  lemma {:induction false} ReadingSplits(a: seq<Entry>, b: seq<Entry>)
    ensures TriedIn(a + b) == TriedIn(a) + TriedIn(b)
    ensures NumbersIn(a + b) == NumbersIn(a) + NumbersIn(b)
  {
    if a == [] {
      assert a + b == b;
    } else {
      assert (a + b)[1..] == a[1..] + b && (a + b)[0] == a[0];
      ReadingSplits(a[1..], b);
      var g := if a[0].Tried? then [a[0].guardian] else [];
      assert g + (TriedIn(a[1..]) + TriedIn(b)) == (g + TriedIn(a[1..])) + TriedIn(b);
      var n := if a[0].Shipped? then [a[0].shipment.snapshot.sequenceNum] else [];
      assert n + (NumbersIn(a[1..]) + NumbersIn(b)) == (n + NumbersIn(a[1..])) + NumbersIn(b);
    }
  }

  lemma TurnReads(t: Tables, g: Guardian, key: seq<byte>, tee: string, turn: Turn)
    requires |key| == 32
    ensures TriedIn(TurnEntries(t, g, key, tee, turn)) == [g]
    ensures NumbersIn(TurnEntries(t, g, key, tee, turn)) == if Ships(turn) then [Snap.NextNumber(turn.whileExchanging(t))] else []
  {
    var shipped := if Ships(turn) then [Shipped(g, ShipmentFor(turn.whileExchanging(t), key, tee, turn))] else [];
    var acked := if Ships(turn) && turn.reply == Succession.Confirmed then [Acknowledged(g)] else [];
    ReadingSplits([Tried(g)] + shipped, acked);
    ReadingSplits([Tried(g)], shipped);
    assert forall e: Entry :: [e][1..] == [];
  }

  /** Each active guardian is tried exactly once, in list order, and no other. */
  lemma {:induction false} EveryActiveGuardianIsTried(t: Tables, gs: seq<Guardian>, key: seq<byte>, tee: string, net: Peers)
    requires |key| == 32
    ensures TriedIn(Distribute(t, gs, key, tee, net).1) == gs
    decreases |gs|
  {
    if gs != [] {
      var turn := net(gs[0], t);
      EveryActiveGuardianIsTried(TurnTables(t, turn), gs[1..], key, tee, net);
      TurnReads(t, gs[0], key, tee, turn);
      TriedFirst(gs, TurnEntries(t, gs[0], key, tee, turn), Distribute(TurnTables(t, turn), gs[1..], key, tee, net).1);
    }
  }

  lemma TriedFirst(gs: seq<Guardian>, first: seq<Entry>, rest: seq<Entry>)
    requires gs != [] && TriedIn(first) == [gs[0]] && TriedIn(rest) == gs[1..]
    ensures TriedIn(first + rest) == gs
  {
    ReadingSplits(first, rest);
  }

  lemma {:induction false} ActiveOnlySplits(gs: seq<Guardian>, more: seq<Guardian>)
    ensures ActiveOnly(gs + more) == ActiveOnly(gs) + ActiveOnly(more)
  {
    if gs == [] {
      assert gs + more == more;
    } else {
      assert (gs + more)[1..] == gs[1..] + more && (gs + more)[0] == gs[0];
      ActiveOnlySplits(gs[1..], more);
      var g := if gs[0].status == Active then [gs[0]] else [];
      assert g + (ActiveOnly(gs[1..]) + ActiveOnly(more)) == (g + ActiveOnly(gs[1..])) + ActiveOnly(more);
    }
  }

  /** The guardians rotated to are the active rows of the list, each as often as it is listed, in the list's order. */
  lemma {:induction false} ActiveOnlyIsExact(before: seq<Guardian>, g: Guardian, after: seq<Guardian>)
    ensures ActiveOnly(before + [g] + after) ==
            ActiveOnly(before) + (if g.status == Active then [g] else []) + ActiveOnly(after)
  {
    ActiveOnlySplits(before + [g], after);
    ActiveOnlySplits(before, [g]);
    assert [g][1..] == [];
  }

  // ----- the numbers sent -----

  /** The key exchange worked, so a snapshot number is spent. */
  predicate Reached(turn: Turn) {
    Shared(turn).Some?
  }

  /** The turns that the guardians of a rotation get. */
  function Turns(t: Tables, gs: seq<Guardian>, net: Peers): (ts: seq<Turn>)
    ensures |ts| == |gs|
    decreases |gs|
  {
    if gs == [] then [] else [net(gs[0], t)] + Turns(TurnTables(t, net(gs[0], t)), gs[1..], net)
  }

  /** The snapshot numbers that other code spent during a turn: before its own snapshot, and after. */
  datatype Tally = Tally(before: nat, after: nat)

  ghost predicate Advances(t: Tables, t': Tables, n: nat) {
    && SnapshotLaws.WellCounted(t') && Snap.NextNumber(t).Int?
    && Snap.NextNumber(t') == Int(Snap.NextNumber(t).value + n)
  }

  /** `tally` counts what other code spent, turn by turn; the counter is otherwise left alone. */
  ghost predicate Tallied(t: Tables, gs: seq<Guardian>, net: Peers, tally: seq<Tally>)
    decreases |gs|
  {
    |tally| == |gs| &&
    (gs != [] ==>
       var turn := net(gs[0], t);
       var t1 := turn.whileExchanging(t);
       && Advances(t, t1, tally[0].before)
       && (if Reached(turn) then Advances(Snap.Bumped(t1), turn.whileSending(Snap.Bumped(t1)), tally[0].after)
           else tally[0].after == 0)
       && Tallied(TurnTables(t, turn), gs[1..], net, tally[1..]))
  }

  /** A turn in which some number was spent that was not sent. */
  predicate Slips(turn: Turn, y: Tally) {
    y.before > 0 || y.after > 0 || (Reached(turn) && !Ships(turn))
  }

  ghost predicate LostBetween(ts: seq<Turn>, ys: seq<Tally>, a: nat, b: nat)
    requires a < b < |ts| == |ys|
  {
    ys[a].after > 0 || ys[b].before > 0 || exists j :: a < j < b && Slips(ts[j], ys[j])
  }

  /** Between two shipments some number was spent and not sent. */
  ghost predicate NumberLost(ts: seq<Turn>, ys: seq<Tally>)
    requires |ts| == |ys|
  {
    exists a: nat, b: nat :: a < b < |ts| && Ships(ts[a]) && Ships(ts[b]) && LostBetween(ts, ys, a, b)
  }

  ghost predicate LostBefore(ts: seq<Turn>, ys: seq<Tally>, b: nat)
    requires b < |ts| == |ys|
  {
    ys[b].before > 0 || exists j :: 0 <= j < b && Slips(ts[j], ys[j])
  }

  /** In front of some shipment a number was spent and not sent. */
  ghost predicate LateLoss(ts: seq<Turn>, ys: seq<Tally>)
    requires |ts| == |ys|
  {
    exists b: nat :: b < |ts| && Ships(ts[b]) && LostBefore(ts, ys, b)
  }

  ghost predicate SomeoneShips(ts: seq<Turn>) {
    exists b :: 0 <= b < |ts| && Ships(ts[b])
  }

  lemma LateLossSplits(ts: seq<Turn>, ys: seq<Tally>)
    requires |ts| == |ys| && ts != []
    ensures LateLoss(ts, ys) <==>
            || (Ships(ts[0]) && ys[0].before > 0)
            || (Slips(ts[0], ys[0]) && SomeoneShips(ts[1..]))
            || LateLoss(ts[1..], ys[1..])
  {
    var tail, rest := ts[1..], ys[1..];
    if b: nat :| b < |ts| && Ships(ts[b]) && LostBefore(ts, ys, b) {
      if b > 0 {
        assert tail[b - 1] == ts[b] && rest[b - 1] == ys[b];
        if j :| 0 < j < b && Slips(ts[j], ys[j]) {
          assert tail[j - 1] == ts[j] && rest[j - 1] == ys[j];
          assert LostBefore(tail, rest, b - 1);
        } else if ys[b].before > 0 {
          assert LostBefore(tail, rest, b - 1);
        }
      }
    }
    if Ships(ts[0]) && ys[0].before > 0 { assert LostBefore(ts, ys, 0); }
    if Slips(ts[0], ys[0]) && SomeoneShips(tail) {
      var b :| 0 <= b < |tail| && Ships(tail[b]);
      assert ts[b + 1] == tail[b] && LostBefore(ts, ys, b + 1);
    }
    if LateLoss(tail, rest) {
      var b: nat :| b < |tail| && Ships(tail[b]) && LostBefore(tail, rest, b);
      assert ts[b + 1] == tail[b] && ys[b + 1] == rest[b];
      if j :| 0 <= j < b && Slips(tail[j], rest[j]) { assert ts[j + 1] == tail[j] && ys[j + 1] == rest[j]; }
      assert LostBefore(ts, ys, b + 1);
    }
  }

  /** A loss between two shipments is a loss in front of one. */
  lemma LostIsLate(ts: seq<Turn>, ys: seq<Tally>)
    requires |ts| == |ys| && NumberLost(ts, ys)
    ensures LateLoss(ts, ys)
  {
    var a: nat, b: nat :| a < b < |ts| && Ships(ts[a]) && Ships(ts[b]) && LostBetween(ts, ys, a, b);
    assert ys[a].after > 0 ==> Slips(ts[a], ys[a]);
    assert LostBefore(ts, ys, b);
  }

  lemma LostInTail(ts: seq<Turn>, ys: seq<Tally>)
    requires |ts| == |ys| && ts != [] && NumberLost(ts[1..], ys[1..])
    ensures NumberLost(ts, ys)
  {
    var tail, rest := ts[1..], ys[1..];
    var a: nat, b: nat :| a < b < |tail| && Ships(tail[a]) && Ships(tail[b]) && LostBetween(tail, rest, a, b);
    assert ts[a + 1] == tail[a] && ts[b + 1] == tail[b] && ys[a + 1] == rest[a] && ys[b + 1] == rest[b];
    if j :| a < j < b && Slips(tail[j], rest[j]) { assert ts[j + 1] == tail[j] && ys[j + 1] == rest[j]; }
    assert LostBetween(ts, ys, a + 1, b + 1);
  }

  lemma LostAfterHead(ts: seq<Turn>, ys: seq<Tally>)
    requires |ts| == |ys| && ts != [] && Ships(ts[0])
    requires (ys[0].after > 0 && SomeoneShips(ts[1..])) || LateLoss(ts[1..], ys[1..])
    ensures NumberLost(ts, ys)
  {
    var tail, rest := ts[1..], ys[1..];
    if LateLoss(tail, rest) {
      var b: nat :| b < |tail| && Ships(tail[b]) && LostBefore(tail, rest, b);
      assert ts[b + 1] == tail[b] && ys[b + 1] == rest[b];
      if j :| 0 <= j < b && Slips(tail[j], rest[j]) { assert ts[j + 1] == tail[j] && ys[j + 1] == rest[j]; }
      assert LostBetween(ts, ys, 0, b + 1);
    } else {
      var b :| 0 <= b < |tail| && Ships(tail[b]);
      assert ts[b + 1] == tail[b];
      assert LostBetween(ts, ys, 0, b + 1);
    }
  }

  lemma NumberLostSplits(ts: seq<Turn>, ys: seq<Tally>)
    requires |ts| == |ys| && ts != []
    ensures NumberLost(ts, ys) <==>
            || NumberLost(ts[1..], ys[1..])
            || (Ships(ts[0]) && ((ys[0].after > 0 && SomeoneShips(ts[1..])) || LateLoss(ts[1..], ys[1..])))
  {
    var tail, rest := ts[1..], ys[1..];
    if a: nat, b: nat :| a < b < |ts| && Ships(ts[a]) && Ships(ts[b]) && LostBetween(ts, ys, a, b) {
      assert tail[b - 1] == ts[b] && rest[b - 1] == ys[b];
      if j :| a < j < b && Slips(ts[j], ys[j]) { assert tail[j - 1] == ts[j] && rest[j - 1] == ys[j]; }
      if a > 0 {
        assert tail[a - 1] == ts[a] && rest[a - 1] == ys[a];
        assert LostBetween(tail, rest, a - 1, b - 1);
      } else {
        assert ys[0].after > 0 || LostBefore(tail, rest, b - 1);
      }
    }
    if NumberLost(tail, rest) { LostInTail(ts, ys); }
    if Ships(ts[0]) && ((ys[0].after > 0 && SomeoneShips(tail)) || LateLoss(tail, rest)) { LostAfterHead(ts, ys); }
  }

  ghost predicate Consecutive(numbers: seq<Number>, from: int) {
    forall i :: 0 <= i < |numbers| ==> numbers[i] == Int(from + i)
  }

  /** Each number is one more than the one before it. */
  ghost predicate Gapless(numbers: seq<Number>) {
    numbers != [] ==> numbers[0].Int? && Consecutive(numbers, numbers[0].value)
  }

  /** The numbers of the snapshots that a rotation to `gs` sends. */
  function NumbersSent(t: Tables, gs: seq<Guardian>, key: seq<byte>, tee: string, net: Peers): seq<Number>
    requires |key| == 32
  {
    NumbersIn(Distribute(t, gs, key, tee, net).1)
  }

  /** What one turn does to the count: its tally, and one number if it gets as far as making a snapshot. */
  lemma TurnCounts(t: Tables, turn: Turn, y: Tally)
    requires SnapshotLaws.WellCounted(t)
    requires var t1 := turn.whileExchanging(t);
             && Advances(t, t1, y.before)
             && if Reached(turn) then Advances(Snap.Bumped(t1), turn.whileSending(Snap.Bumped(t1)), y.after) else y.after == 0
    ensures Snap.NextNumber(t).Int?
    ensures var n, t' := Snap.NextNumber(t).value, TurnTables(t, turn);
            && SnapshotLaws.WellCounted(t')
            && Snap.NextNumber(turn.whileExchanging(t)) == Int(n + y.before)
            && Snap.NextNumber(t') == Int(n + y.before + (if Reached(turn) then 1 else 0) + y.after)
  {
    SnapshotLaws.NextIsOneMore(t);
    SnapshotLaws.NextIsOneMore(turn.whileExchanging(t));
  }

  lemma NumbersSentSplit(t: Tables, gs: seq<Guardian>, key: seq<byte>, tee: string, net: Peers)
    requires |key| == 32 && gs != []
    ensures var turn := net(gs[0], t);
            NumbersSent(t, gs, key, tee, net) ==
            (if Ships(turn) then [Snap.NextNumber(turn.whileExchanging(t))] else [])
            + NumbersSent(TurnTables(t, turn), gs[1..], key, tee, net)
  {
    var turn := net(gs[0], t);
    TurnReads(t, gs[0], key, tee, turn);
    ReadingSplits(TurnEntries(t, gs[0], key, tee, turn), Distribute(TurnTables(t, turn), gs[1..], key, tee, net).1);
  }

  lemma NumbersSentStep(t: Tables, gs: seq<Guardian>, key: seq<byte>, tee: string, net: Peers, ys: seq<Tally>)
    requires |key| == 32 && gs != [] && SnapshotLaws.WellCounted(t) && Tallied(t, gs, net, ys)
    ensures Snap.NextNumber(t).Int?
    ensures var n, turn := Snap.NextNumber(t).value, net(gs[0], t);
            var t1 := TurnTables(t, turn);
            && NumbersSent(t, gs, key, tee, net) ==
               (if Ships(turn) then [Int(n + ys[0].before)] else []) + NumbersSent(t1, gs[1..], key, tee, net)
            && SnapshotLaws.WellCounted(t1)
            && Snap.NextNumber(t1) == Int(n + ys[0].before + (if Reached(turn) then 1 else 0) + ys[0].after)
  {
    TurnCounts(t, net(gs[0], t), ys[0]);
    NumbersSentSplit(t, gs, key, tee, net);
  }

  lemma {:induction false} NumbersAreLate(t: Tables, gs: seq<Guardian>, key: seq<byte>, tee: string, net: Peers, ys: seq<Tally>)
    requires |key| == 32 && SnapshotLaws.WellCounted(t) && Tallied(t, gs, net, ys)
    ensures var numbers := NumbersSent(t, gs, key, tee, net);
            && (numbers != [] <==> SomeoneShips(Turns(t, gs, net)))
            && (numbers != [] ==> numbers[0].Int? && Snap.NextNumber(t).Int? && numbers[0].value >= Snap.NextNumber(t).value)
    decreases |gs|
  {
    if gs != [] {
      var turn := net(gs[0], t);
      NumbersSentStep(t, gs, key, tee, net, ys);
      NumbersAreLate(TurnTables(t, turn), gs[1..], key, tee, net, ys[1..]);
      ShippingSplits(Turns(t, gs, net));
      assert Turns(t, gs, net)[1..] == Turns(TurnTables(t, turn), gs[1..], net);
    }
  }

  lemma ShippingSplits(ts: seq<Turn>)
    requires ts != []
    ensures SomeoneShips(ts) <==> Ships(ts[0]) || SomeoneShips(ts[1..])
  {
    if SomeoneShips(ts[1..]) {
      var b :| 0 <= b < |ts[1..]| && Ships(ts[1..][b]);
      assert Ships(ts[b + 1]);
    }
    if SomeoneShips(ts) && !Ships(ts[0]) {
      var b :| 0 <= b < |ts| && Ships(ts[b]);
      assert ts[1..][b - 1] == ts[b];
    }
  }

  lemma ConsecutiveSplits(n: int, later: seq<Number>)
    ensures Consecutive([Int(n)] + later, n) <==> Consecutive(later, n + 1)
  {
    var numbers := [Int(n)] + later;
    assert forall i :: 0 <= i < |later| ==> numbers[i + 1] == later[i];
    if Consecutive(numbers, n) {
      forall i | 0 <= i < |later| ensures later[i] == Int(n + 1 + i) {
        assert numbers[i + 1] == Int(n + (i + 1));
      }
    }
  }

  /** Numbers that begin late are not consecutive, unless there are none. */
  lemma LateNumbers(later: seq<Number>, from: int, next: int)
    requires from < next && (later != [] ==> later[0].Int? && later[0].value >= next)
    ensures Consecutive(later, from) <==> later == []
  {
  }

  lemma LateNeedsShipment(ts: seq<Turn>, ys: seq<Tally>)
    requires |ts| == |ys|
    ensures LateLoss(ts, ys) ==> SomeoneShips(ts)
  {
  }

  lemma CountStep(n: int, y: Tally, turn: Turn, later: seq<Number>, next: int)
    requires next == n + y.before + (if Reached(turn) then 1 else 0) + y.after
    requires later != [] ==> later[0].Int? && later[0].value >= next
    ensures var numbers := (if Ships(turn) then [Int(n + y.before)] else []) + later;
            Consecutive(numbers, n) <==>
              if Ships(turn) && y.before > 0 then false
              else if Slips(turn, y) then later == [] else Consecutive(later, next)
  {
    if Ships(turn) {
      if y.before > 0 {
        assert ([Int(n + y.before)] + later)[0] == Int(n + y.before);
      } else {
        ConsecutiveSplits(n, later);
        if y.after > 0 { LateNumbers(later, n + 1, next); }
      }
    } else {
      assert [] + later == later;
      if Slips(turn, y) { LateNumbers(later, n, next); }
    }
  }

  /** One turn of a rotation, as far as the numbers sent by it and after it go. */
  /** How the numbers sent, and the next one, follow from the first turn and what comes later. */
  ghost predicate Continues(numbers: seq<Number>, later: seq<Number>, n: int, next: int, ts: seq<Turn>, ys: seq<Tally>) {
    && |ts| == |ys| && ts != []
    && next == n + ys[0].before + (if Reached(ts[0]) then 1 else 0) + ys[0].after
    && numbers == (if Ships(ts[0]) then [Int(n + ys[0].before)] else []) + later
    && (later != [] <==> SomeoneShips(ts[1..])) && (later != [] ==> later[0].Int? && later[0].value >= next)
  }

  lemma TailFacts(t: Tables, gs: seq<Guardian>, key: seq<byte>, tee: string, net: Peers, ys: seq<Tally>)
    requires |key| == 32 && gs != [] && SnapshotLaws.WellCounted(t) && Tallied(t, gs, net, ys)
    ensures var t1 := TurnTables(t, net(gs[0], t));
            && SnapshotLaws.WellCounted(t1) && Tallied(t1, gs[1..], net, ys[1..])
            && Snap.NextNumber(t).Int? && Snap.NextNumber(t1).Int?
            && Turns(t, gs, net)[1..] == Turns(t1, gs[1..], net)
            && Continues(NumbersSent(t, gs, key, tee, net), NumbersSent(t1, gs[1..], key, tee, net),
                         Snap.NextNumber(t).value, Snap.NextNumber(t1).value, Turns(t, gs, net), ys)
  {
    var t1 := TurnTables(t, net(gs[0], t));
    NumbersSentStep(t, gs, key, tee, net, ys);
    NumbersAreLate(t1, gs[1..], key, tee, net, ys[1..]);
  }

  lemma CountHeadAndTail(n: int, y: Tally, turn: Turn, later: seq<Number>, next: int, ts: seq<Turn>, ys: seq<Tally>)
    requires next == n + y.before + (if Reached(turn) then 1 else 0) + y.after
    requires later != [] ==> later[0].Int? && later[0].value >= next
    requires |ts| == |ys| && (later != [] <==> SomeoneShips(ts))
    requires Consecutive(later, next) <==> !LateLoss(ts, ys)
    ensures Consecutive((if Ships(turn) then [Int(n + y.before)] else []) + later, n) <==>
            !((Ships(turn) && y.before > 0) || (Slips(turn, y) && SomeoneShips(ts)) || LateLoss(ts, ys))
  {
    CountStep(n, y, turn, later, next);
    LateNeedsShipment(ts, ys);
  }

  lemma CountsFromHead(numbers: seq<Number>, later: seq<Number>, n: int, next: int, ts: seq<Turn>, ys: seq<Tally>)
    requires Continues(numbers, later, n, next, ts, ys)
    requires Consecutive(later, next) <==> !LateLoss(ts[1..], ys[1..])
    ensures Consecutive(numbers, n) <==> !LateLoss(ts, ys)
  {
    LateLossSplits(ts, ys);
    CountHeadAndTail(n, ys[0], ts[0], later, next, ts[1..], ys[1..]);
  }

  /** The numbers sent continue the database's count exactly when none is lost in front of a shipment. */
  lemma {:induction false} CountContinues(t: Tables, gs: seq<Guardian>, key: seq<byte>, tee: string, net: Peers, ys: seq<Tally>)
    requires |key| == 32 && SnapshotLaws.WellCounted(t) && Tallied(t, gs, net, ys)
    ensures Snap.NextNumber(t).Int?
    ensures Consecutive(NumbersSent(t, gs, key, tee, net), Snap.NextNumber(t).value) <==> !LateLoss(Turns(t, gs, net), ys)
    decreases |gs|
  {
    SnapshotLaws.NextIsOneMore(t);
    if gs != [] {
      var t1 := TurnTables(t, net(gs[0], t));
      TailFacts(t, gs, key, tee, net, ys);
      CountContinues(t1, gs[1..], key, tee, net, ys[1..]);
      CountsFromHead(NumbersSent(t, gs, key, tee, net), NumbersSent(t1, gs[1..], key, tee, net), Snap.NextNumber(t).value,
                     Snap.NextNumber(t1).value, Turns(t, gs, net), ys);
    }
  }

  lemma GapStep(n: int, y: Tally, turn: Turn, later: seq<Number>, next: int)
    requires next == n + y.before + (if Reached(turn) then 1 else 0) + y.after
    requires later != [] ==> later[0].Int? && later[0].value >= next
    ensures var numbers := (if Ships(turn) then [Int(n + y.before)] else []) + later;
            Gapless(numbers) <==>
              if !Ships(turn) then Gapless(later)
              else if y.after > 0 then later == [] else Consecutive(later, next)
  {
    if Ships(turn) {
      ConsecutiveSplits(n + y.before, later);
      if y.after > 0 { LateNumbers(later, n + y.before + 1, next); }
    } else {
      assert [] + later == later;
    }
  }

  lemma TailLosses(ts: seq<Turn>, ys: seq<Tally>)
    requires |ts| == |ys|
    ensures NumberLost(ts, ys) ==> LateLoss(ts, ys)
    ensures LateLoss(ts, ys) ==> SomeoneShips(ts)
  {
    if NumberLost(ts, ys) { LostIsLate(ts, ys); }
  }

  lemma HeadAndTail(n: int, y: Tally, turn: Turn, later: seq<Number>, next: int, ts: seq<Turn>, ys: seq<Tally>)
    requires next == n + y.before + (if Reached(turn) then 1 else 0) + y.after
    requires later != [] ==> later[0].Int? && later[0].value >= next
    requires |ts| == |ys| && (later != [] <==> SomeoneShips(ts))
    requires Gapless(later) <==> !NumberLost(ts, ys)
    requires Consecutive(later, next) <==> !LateLoss(ts, ys)
    ensures Gapless((if Ships(turn) then [Int(n + y.before)] else []) + later) <==>
            !(NumberLost(ts, ys) || (Ships(turn) && ((y.after > 0 && SomeoneShips(ts)) || LateLoss(ts, ys))))
  {
    GapStep(n, y, turn, later, next);
    TailLosses(ts, ys);
  }

  lemma LossesFromHead(numbers: seq<Number>, later: seq<Number>, n: int, next: int, ts: seq<Turn>, ys: seq<Tally>)
    requires Continues(numbers, later, n, next, ts, ys)
    requires Gapless(later) <==> !NumberLost(ts[1..], ys[1..])
    requires Consecutive(later, next) <==> !LateLoss(ts[1..], ys[1..])
    ensures Gapless(numbers) <==> !NumberLost(ts, ys)
  {
    NumberLostSplits(ts, ys);
    HeadAndTail(n, ys[0], ts[0], later, next, ts[1..], ys[1..]);
  }

  /**
    The snapshots sent carry consecutive numbers exactly when, between two shipments, no number was spent that
    was not sent: neither by a turn whose signature failed nor by other code that made snapshots meanwhile.
   */
  lemma {:induction false} SentNumbersAreConsecutive(t: Tables, gs: seq<Guardian>, key: seq<byte>, tee: string, net: Peers, ys: seq<Tally>)
    requires |key| == 32 && SnapshotLaws.WellCounted(t) && Tallied(t, gs, net, ys)
    ensures Gapless(NumbersSent(t, gs, key, tee, net)) <==> !NumberLost(Turns(t, gs, net), ys)
    decreases |gs|
  {
    if gs != [] {
      var t1 := TurnTables(t, net(gs[0], t));
      TailFacts(t, gs, key, tee, net, ys);
      CountContinues(t1, gs[1..], key, tee, net, ys[1..]);
      SentNumbersAreConsecutive(t1, gs[1..], key, tee, net, ys[1..]);
      LossesFromHead(NumbersSent(t, gs, key, tee, net), NumbersSent(t1, gs[1..], key, tee, net), Snap.NextNumber(t).value,
                     Snap.NextNumber(t1).value, Turns(t, gs, net), ys);
    }
  }

  // ----- what is on the wire -----

  lemma ShipmentOpens(t: Tables, key: seq<byte>, tee: string, turn: Turn, scalar: nat)
    requires |key| == 32 && Ships(turn)
    ensures var sh := ShipmentFor(t, key, tee, turn);
            && Agree(scalar, sh.primaryKey).Some?
            && Open(Agree(scalar, sh.primaryKey).value, sh.wrappedKey) ==
               (if turn.exchange.value.1 == Point(scalar) then Some(key) else None)
            && Snap.Image(sh.snapshot, Raw(key)) == Some(t)
  {
    AgreementIsSymmetricAndTight(turn.exchange.value.0, scalar, turn.exchange.value.1.secret);
  }

  /** The database when turn `k` begins. */
  function StateAt(t: Tables, gs: seq<Guardian>, net: Peers, k: nat): Tables
    requires k < |gs|
    decreases k
  {
    if k == 0 then t else StateAt(TurnTables(t, net(gs[0], t)), gs[1..], net, k - 1)
  }

  /** What turn `k` writes to the log: a shipment exactly when it ships, and an acknowledgement only with it. */
  lemma {:induction false} TurnIsLogged(t: Tables, gs: seq<Guardian>, key: seq<byte>, tee: string, net: Peers, k: nat)
    requires |key| == 32 && k < |gs|
    ensures var s, log := StateAt(t, gs, net, k), Distribute(t, gs, key, tee, net).1;
            && net(gs[k], s) == Turns(t, gs, net)[k]
            && (forall e <- TurnEntries(s, gs[k], key, tee, net(gs[k], s)) :: e in log)
    decreases k
  {
    if k > 0 {
      TurnIsLogged(TurnTables(t, net(gs[0], t)), gs[1..], key, tee, net, k - 1);
    }
  }

  /** Every entry of the log was written by some turn. */
  lemma {:induction false} LoggedByTurn(t: Tables, gs: seq<Guardian>, key: seq<byte>, tee: string, net: Peers, e: Entry) returns (k: nat)
    requires |key| == 32 && e in Distribute(t, gs, key, tee, net).1
    ensures k < |gs| && var s := StateAt(t, gs, net, k); e in TurnEntries(s, gs[k], key, tee, net(gs[k], s))
    decreases |gs|
  {
    if e in TurnEntries(t, gs[0], key, tee, net(gs[0], t)) {
      k := 0;
    } else {
      k := LoggedByTurn(TurnTables(t, net(gs[0], t)), gs[1..], key, tee, net, e);
      k := k + 1;
    }
  }

  /**
    Everything sent opens under the new key to the primary's database as it was when the snapshot was made, and
    its guardian, nobody else, can unwrap that key.
   */
  lemma ShipmentsOpen(t: Tables, gs: seq<Guardian>, key: seq<byte>, tee: string, net: Peers, e: Entry, scalar: nat) returns (k: nat)
    requires |key| == 32 && e in Distribute(t, gs, key, tee, net).1 && e.Shipped?
    ensures k < |gs| && e.guardian == gs[k]
    ensures var s := StateAt(t, gs, net, k);
            var turn := net(gs[k], s);
            && Ships(turn)
            && Agree(scalar, e.shipment.primaryKey).Some?
            && Open(Agree(scalar, e.shipment.primaryKey).value, e.shipment.wrappedKey) ==
               (if turn.exchange.value.1 == Point(scalar) then Some(key) else None)
            && Snap.Image(e.shipment.snapshot, Raw(key)) == Some(turn.whileExchanging(s))
  {
    k := LoggedByTurn(t, gs, key, tee, net, e);
    var s := StateAt(t, gs, net, k);
    var turn := net(gs[k], s);
    if Ships(turn) { ShipmentOpens(turn.whileExchanging(s), key, tee, turn, scalar); }
  }

  /** A guardian acknowledges only what it was sent: in the log, each acknowledgement has its shipment. */
  lemma AcknowledgedWasShipped(t: Tables, gs: seq<Guardian>, key: seq<byte>, tee: string, net: Peers, g: Guardian)
    returns (sh: Shipment)
    requires |key| == 32 && Acknowledged(g) in Distribute(t, gs, key, tee, net).1
    ensures Shipped(g, sh) in Distribute(t, gs, key, tee, net).1
  {
    var k := LoggedByTurn(t, gs, key, tee, net, Acknowledged(g));
    var s := StateAt(t, gs, net, k);
    var turn := net(gs[k], s);
    TurnIsLogged(t, gs, key, tee, net, k);
    sh := ShipmentFor(turn.whileExchanging(s), key, tee, turn);
    assert TurnEntries(s, gs[k], key, tee, turn)[1] == Shipped(gs[k], sh);
  }

  /** Each guardian whose turn got as far as shipping has a shipment from which its scalar unwraps the new key. */
  lemma ReachedCanUnwrap(t: Tables, gs: seq<Guardian>, key: seq<byte>, tee: string, net: Peers, k: nat, scalar: nat)
    returns (sh: Shipment)
    requires |key| == 32 && k < |gs|
    requires var turn := Turns(t, gs, net)[k]; Ships(turn) && turn.exchange.value.1 == Point(scalar)
    ensures Shipped(gs[k], sh) in Distribute(t, gs, key, tee, net).1
    ensures Agree(scalar, sh.primaryKey).Some? && Open(Agree(scalar, sh.primaryKey).value, sh.wrappedKey) == Some(key)
  {
    var s := StateAt(t, gs, net, k);
    TurnIsLogged(t, gs, key, tee, net, k);
    var turn := net(gs[k], s);
    sh := ShipmentFor(turn.whileExchanging(s), key, tee, turn);
    assert TurnEntries(s, gs[k], key, tee, turn)[1] == Shipped(gs[k], sh);
    ShipmentOpens(turn.whileExchanging(s), key, tee, turn, scalar);
  }

  // ----- who is served, in the fields of the turns -----

  function ShippedIn(log: seq<Entry>): seq<Guardian> {
    if log == [] then [] else (if log[0].Shipped? then [log[0].guardian] else []) + ShippedIn(log[1..])
  }

  function AcknowledgedIn(log: seq<Entry>): seq<Guardian> {
    if log == [] then [] else (if log[0].Acknowledged? then [log[0].guardian] else []) + AcknowledgedIn(log[1..])
  }

  lemma {:induction false} ServiceSplits(a: seq<Entry>, b: seq<Entry>)
    ensures ShippedIn(a + b) == ShippedIn(a) + ShippedIn(b)
    ensures AcknowledgedIn(a + b) == AcknowledgedIn(a) + AcknowledgedIn(b)
  {
    if a == [] {
      assert a + b == b;
    } else {
      assert (a + b)[1..] == a[1..] + b && (a + b)[0] == a[0];
      ServiceSplits(a[1..], b);
    }
  }

  /** Key exchange and signature come about, so there is something to send. */
  predicate Reachable(turn: Turn) {
    turn.exchange.Some? && turn.exchange.value.1.Point? && turn.sign.Some?
  }

  predicate Confirms(turn: Turn) {
    Reachable(turn) && turn.reply == Succession.Confirmed
  }

  /** The guardians whose turns have a property. */
  function Chosen(gs: seq<Guardian>, ts: seq<Turn>, q: Turn -> bool): seq<Guardian>
    requires |gs| == |ts|
  {
    if gs == [] then [] else (if q(ts[0]) then [gs[0]] else []) + Chosen(gs[1..], ts[1..], q)
  }

  lemma TurnServes(t: Tables, g: Guardian, key: seq<byte>, tee: string, turn: Turn)
    requires |key| == 32
    ensures ShippedIn(TurnEntries(t, g, key, tee, turn)) == if Reachable(turn) then [g] else []
    ensures AcknowledgedIn(TurnEntries(t, g, key, tee, turn)) == if Confirms(turn) then [g] else []
  {
    var shipped := if Ships(turn) then [Shipped(g, ShipmentFor(turn.whileExchanging(t), key, tee, turn))] else [];
    var acked := if Ships(turn) && turn.reply == Succession.Confirmed then [Acknowledged(g)] else [];
    ServiceSplits([Tried(g)] + shipped, acked);
    ServiceSplits([Tried(g)], shipped);
    assert forall e: Entry :: [e][1..] == [];
  }

  /** A shipment goes to exactly those that can be reached, an acknowledgement is recorded for exactly those that confirm. */
  lemma {:induction false} ServedExactly(t: Tables, gs: seq<Guardian>, key: seq<byte>, tee: string, net: Peers)
    requires |key| == 32
    ensures var log := Distribute(t, gs, key, tee, net).1;
            && ShippedIn(log) == Chosen(gs, Turns(t, gs, net), Reachable)
            && AcknowledgedIn(log) == Chosen(gs, Turns(t, gs, net), Confirms)
    decreases |gs|
  {
    if gs != [] {
      var turn := net(gs[0], t);
      ServedExactly(TurnTables(t, turn), gs[1..], key, tee, net);
      TurnServes(t, gs[0], key, tee, turn);
      ServiceSplits(TurnEntries(t, gs[0], key, tee, turn), Distribute(TurnTables(t, turn), gs[1..], key, tee, net).1);
      assert Turns(t, gs, net)[1..] == Turns(TurnTables(t, turn), gs[1..], net);
    }
  }
}
