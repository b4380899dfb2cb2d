/** What the candidate loop guarantees, and why guardians that run it apart pick the same successor. */
module SuccessionLaws {
  import opened Prelude
  import opened Crypto
  import opened ProtocolState
  import opened Selector
  import opened StandDown
  import opened Succession
  import Snap = Snapshots

  // ----- reading the wire -----

  function ContactedIn(log: seq<Exchange>): seq<Backup> {
    if log == [] then [] else (if log[0].Contacted? then [log[0].candidate] else []) + ContactedIn(log[1..])
  }

  function DeliveredIn(log: seq<Exchange>): seq<Backup> {
    if log == [] then [] else (if log[0].Delivered? then [log[0].candidate] else []) + DeliveredIn(log[1..])
  }

  function AcceptedIn(log: seq<Exchange>): seq<Backup> {
    if log == [] then [] else (if log[0].Accepted? then [log[0].candidate] else []) + AcceptedIn(log[1..])
  }

  lemma {:induction false} ReadingSplits(a: seq<Exchange>, b: seq<Exchange>)
    ensures ContactedIn(a + b) == ContactedIn(a) + ContactedIn(b)
    ensures DeliveredIn(a + b) == DeliveredIn(a) + DeliveredIn(b)
    ensures AcceptedIn(a + b) == AcceptedIn(a) + AcceptedIn(b)
  {
    if a == [] {
      assert a + b == b;
    } else {
      assert (a + b)[1..] == a[1..] + b && (a + b)[0] == a[0];
      ReadingSplits(a[1..], b);
      var c := if a[0].Contacted? then [a[0].candidate] else [];
      assert c + (ContactedIn(a[1..]) + ContactedIn(b)) == (c + ContactedIn(a[1..])) + ContactedIn(b);
      var d := if a[0].Delivered? then [a[0].candidate] else [];
      assert d + (DeliveredIn(a[1..]) + DeliveredIn(b)) == (d + DeliveredIn(a[1..])) + DeliveredIn(b);
      var e := if a[0].Accepted? then [a[0].candidate] else [];
      assert e + (AcceptedIn(a[1..]) + AcceptedIn(b)) == (e + AcceptedIn(a[1..])) + AcceptedIn(b);
    }
  }

  function Senders(cs: seq<Backup>, g: Guard, net: Network): seq<Backup> {
    if cs == [] then [] else (if Sends(g, net(cs[0])) then [cs[0]] else []) + Senders(cs[1..], g, net)
  }

  function Acceptors(cs: seq<Backup>, g: Guard, net: Network): seq<Backup> {
    if cs == [] then [] else (if Accepts(g, net(cs[0])) then [cs[0]] else []) + Acceptors(cs[1..], g, net)
  }

  lemma {:induction false} AcceptorsAre(cs: seq<Backup>, g: Guard, net: Network)
    ensures forall c :: c in Acceptors(cs, g, net) <==> c in cs && Accepts(g, net(c))
  {
    if cs != [] { AcceptorsAre(cs[1..], g, net); }
  }

  function Completions(cs: seq<Backup>): seq<Event> {
    if cs == [] then [] else [Event(SuccessionComplete, Some(cs[0].address))] + Completions(cs[1..])
  }

  /** The position of the first candidate that passes; the number of candidates when none does. */
  function FirstPassing(cs: seq<Backup>, g: Guard, net: Network): (k: nat)
    ensures k <= |cs|
  {
    if cs == [] || Passes(g, net(cs[0])) then 0 else FirstPassing(cs[1..], g, net) + 1
  }

  lemma {:induction false} FirstPassingIs(cs: seq<Backup>, g: Guard, net: Network)
    ensures var k := FirstPassing(cs, g, net);
            && (k < |cs| ==> Passes(g, net(cs[k])))
            && (forall i :: 0 <= i < k ==> !Passes(g, net(cs[i])))
  {
    if cs != [] { FirstPassingIs(cs[1..], g, net); }
  }

  /** The candidates that get a turn. */
  function Tried(cs: seq<Backup>, g: Guard, net: Network): seq<Backup> {
    var k := FirstPassing(cs, g, net);
    FirstPassingIs(cs, g, net);
    if k < |cs| then cs[..k + 1] else cs
  }

  lemma ReadOne(x: Exchange)
    ensures ContactedIn([x]) == (if x.Contacted? then [x.candidate] else [])
    ensures DeliveredIn([x]) == (if x.Delivered? then [x.candidate] else [])
    ensures AcceptedIn([x]) == (if x.Accepted? then [x.candidate] else [])
  {
    assert [x][1..] == [];
  }

  lemma {:induction false} CompletionsSplit(a: seq<Backup>, b: seq<Backup>)
    ensures Completions(a + b) == Completions(a) + Completions(b)
  {
    if a == [] {
      assert a + b == b;
    } else {
      assert (a + b)[1..] == a[1..] + b;
      CompletionsSplit(a[1..], b);
    }
  }

  predicate IsOwn(e: Event) {
    e.kind == SuccessionInitiated || e.kind == SuccessionComplete
  }

  /** The events of a log that only a succession writes. */
  function OwnEvents(es: seq<Event>): seq<Event> {
    if es == [] then []
    else OwnEvents(es[..|es| - 1]) + if IsOwn(es[|es| - 1]) then [es[|es| - 1]] else []
  }

  lemma LoggingOwn(es: seq<Event>, e: Event)
    requires IsOwn(e)
    ensures OwnEvents(es + [e]) == OwnEvents(es) + [e]
  {
    assert (es + [e])[..|es|] == es;
  }

  /** These writers, whatever else they do, neither add nor remove events of successions. */
  ghost predicate LeavesOwn(others: Others) {
    forall t :: OwnEvents(others(t).events) == OwnEvents(t.events)
  }

  ghost predicate Discreet(turn: Turn) {
    LeavesOwn(turn.whileContacting) && LeavesOwn(turn.whileSending) && LeavesOwn(turn.whileCompleting)
  }

  ghost predicate AllDiscreet(cs: seq<Backup>, net: Network) {
    forall c <- cs :: Discreet(net(c))
  }

  /** `p` is what giving exactly the candidates `tried` a turn, in that order, leaves behind. */
  ghost predicate Fulfils(p: Progress, t: Tables, tried: seq<Backup>, g: Guard, net: Network) {
    && ContactedIn(p.log) == tried
    && DeliveredIn(p.log) == Senders(tried, g, net)
    && AcceptedIn(p.log) == Acceptors(tried, g, net)
    && (AllDiscreet(tried, net) ==>
          OwnEvents(p.tables.events) == OwnEvents(t.events) + Completions(Acceptors(tried, g, net)))
  }

  lemma AttemptEvents(t: Tables, c: Backup, g: Guard, turn: Turn)
    requires Discreet(turn)
    ensures OwnEvents(TablesAfter(t, c, g, turn).events) ==
            OwnEvents(t.events) + if Accepts(g, turn) then [Event(SuccessionComplete, Some(c.address))] else []
  {
    var t1 := turn.whileContacting(t);
    var t2 := if Spends(g, turn) then turn.whileSending(Snap.Bumped(t1)) else t1;
    assert Snap.Bumped(t1).events == t1.events;
    LoggingOwn(t2.events, Event(SuccessionComplete, Some(c.address)));
  }

  lemma AttemptLog(t: Tables, c: Backup, g: Guard, turn: Turn)
    ensures ContactedIn(Entries(t, c, g, turn)) == [c]
    ensures DeliveredIn(Entries(t, c, g, turn)) == if Sends(g, turn) then [c] else []
    ensures AcceptedIn(Entries(t, c, g, turn)) == if Accepts(g, turn) then [c] else []
  {
    var sent := if Sends(g, turn) then [Delivered(c, PayloadFor(turn.whileContacting(t), g, turn))] else [];
    var accepted := if Accepts(g, turn) then [Accepted(c)] else [];
    ReadingSplits([Contacted(c)] + sent, accepted);
    ReadingSplits([Contacted(c)], sent);
    ReadOne(Contacted(c));
    ReadOne(Accepted(c));
    if Sends(g, turn) { ReadOne(sent[0]); }
  }

  lemma AttemptContract(t: Tables, c: Backup, g: Guard, net: Network)
    ensures Fulfils(Attempt(t, c, g, net(c)), t, [c], g, net)
  {
    AttemptLog(t, c, g, net(c));
    FirstTurn(c, [], g, net);
    assert Completions([c]) == [Event(SuccessionComplete, Some(c.address))];
    if AllDiscreet([c], net) {
      assert c in [c];
      AttemptEvents(t, c, g, net(c));
    }
  }

  lemma FirstTurn(c: Backup, tail: seq<Backup>, g: Guard, net: Network)
    ensures Senders([c], g, net) == (if Sends(g, net(c)) then [c] else [])
    ensures Acceptors([c], g, net) == (if Accepts(g, net(c)) then [c] else [])
    ensures Senders([c] + tail, g, net) == Senders([c], g, net) + Senders(tail, g, net)
    ensures Acceptors([c] + tail, g, net) == Acceptors([c], g, net) + Acceptors(tail, g, net)
  {
    assert ([c] + tail)[1..] == tail;
    assert [c][1..] == [];
  }

  lemma EventsAddUp(e0: seq<Event>, e1: seq<Event>, e2: seq<Event>, a: seq<Backup>, b: seq<Backup>)
    requires e1 == e0 + Completions(a) && e2 == e1 + Completions(b)
    ensures e2 == e0 + Completions(a + b)
  {
    CompletionsSplit(a, b);
    assert (e0 + Completions(a)) + Completions(b) == e0 + (Completions(a) + Completions(b));
  }

  lemma TurnsAddUp(first: Progress, rest: Progress, t: Tables, c: Backup, tail: seq<Backup>, g: Guard, net: Network)
    requires Fulfils(first, t, [c], g, net) && Fulfils(rest, first.tables, tail, g, net)
    ensures Fulfils(Progress(rest.tables, first.log + rest.log, rest.winner), t, [c] + tail, g, net)
  {
    FirstTurn(c, tail, g, net);
    ReadingSplits(first.log, rest.log);
    if AllDiscreet([c] + tail, net) {
      assert AllDiscreet([c], net) && AllDiscreet(tail, net);
      EventsAddUp(OwnEvents(t.events), OwnEvents(first.tables.events), OwnEvents(rest.tables.events),
                  Acceptors([c], g, net), Acceptors(tail, g, net));
    }
  }

  lemma TriedSplits(cs: seq<Backup>, g: Guard, net: Network)
    requires cs != []
    ensures Tried(cs, g, net) == [cs[0]] + if Passes(g, net(cs[0])) then [] else Tried(cs[1..], g, net)
  {
  }

  /** The winner of the candidates from the first on, once the first has had its turn. */
  lemma WinnerStep(t: Tables, cs: seq<Backup>, g: Guard, net: Network)
    requires cs != []
    ensures var first := Attempt(t, cs[0], g, net(cs[0]));
            var rest := Candidates(first.tables, cs[1..], g, net);
            && (Passes(g, net(cs[0])) ==> Candidates(t, cs, g, net) == first && first.winner == Some(cs[0]))
            && (!Passes(g, net(cs[0])) ==>
                  Candidates(t, cs, g, net) == Progress(rest.tables, first.log + rest.log, rest.winner))
  {
  }

  function WinnerOf(cs: seq<Backup>, g: Guard, net: Network): Option<Backup> {
    var k := FirstPassing(cs, g, net);
    if k < |cs| then Some(cs[k]) else None
  }

  /** The loop contacts its candidates in order, once each, up to the first that passes, and no further. */
  lemma {:induction false} LoopContract(t: Tables, cs: seq<Backup>, g: Guard, net: Network)
    ensures Fulfils(Candidates(t, cs, g, net), t, Tried(cs, g, net), g, net)
    ensures Candidates(t, cs, g, net).winner == WinnerOf(cs, g, net)
    decreases |cs|
  {
    if cs != [] {
      var first := Attempt(t, cs[0], g, net(cs[0]));
      AttemptContract(t, cs[0], g, net);
      TriedSplits(cs, g, net);
      WinnerStep(t, cs, g, net);
      if !Passes(g, net(cs[0])) {
        LoopContract(first.tables, cs[1..], g, net);
        TurnsAddUp(first, Candidates(first.tables, cs[1..], g, net), t, cs[0], Tried(cs[1..], g, net), g, net);
      }
    }
  }

  // ----- whole successions -----

  function GuardOf(t: Tables, vaultKey: seq<byte>, tee: string): Guard {
    Guard(GetConfig(t, APPROVED_RTMR3), vaultKey, tee)
  }

  /** The candidates given a turn are the ranking up to its first passing one; the rest rank behind that one. */
  lemma TriedIsAPrefix(cs: seq<Backup>, g: Guard, net: Network, c: Collation)
    requires InOrder(cs, c)
    ensures var k, tried := FirstPassing(cs, g, net), Tried(cs, g, net);
            && tried <= cs && InOrder(tried, c)
            && (cs != [] ==> tried != [])
            && (k < |cs| ==> tried != [] && tried[|tried| - 1] == cs[k])
            && (forall b <- cs :: b in tried || (k < |cs| && Compare(cs[k], b, c) < 0))
  {
    var k, tried := FirstPassing(cs, g, net), Tried(cs, g, net);
    forall b <- cs ensures b in tried || (k < |cs| && Compare(cs[k], b, c) < 0) {
      var j :| 0 <= j < |cs| && cs[j] == b;
      assert j < |tried| ==> tried[j] == b;
    }
  }

  /** Succession in terms of its candidates: the standby rows, each once, in strict order. */
  lemma SuccessionRunsTheRanking(t: Tables, rows: seq<Backup>, vaultKey: seq<byte>, tee: string, net: Network, c: Collation)
    requires Keyed(t) && BackupListing(rows, t, Some(Standby)) && IsCollation(c)
    ensures var p := Succeed(t, rows, vaultKey, tee, net, c);
            var g := GuardOf(t, vaultKey, tee);
            var cs := Ranked(StandbyOnly(rows), c);
            && InOrder(cs, c) && SameRows(cs, rows)
            && SelectSuccessor(rows, c) == (if cs == [] then None else Some(cs[0]))
            && ContactedIn(p.log) == Tried(cs, g, net)
            && p.winner == (if FirstPassing(cs, g, net) < |cs| then Some(cs[FirstPassing(cs, g, net)]) else None)
  {
    ListingHasDistinctTees(rows, t, Some(Standby));
    StandbyKeepsDistinctTees(rows);
    var cs := Ranked(StandbyOnly(rows), c);
    RankedIsInOrder(StandbyOnly(rows), c);
    InEither(cs, StandbyOnly(rows));
    LoopContract(LogEvent(t, SuccessionInitiated, None), cs, GuardOf(t, vaultKey, tee), net);
  }

  /**
    Who is contacted, and in what order: a strictly ranked run of standby rows that opens with what
    `selectSuccessor` returns and ends with the winner; every other standby row ranks behind the winner.
   */
  lemma ContactsFollowTheRanking(t: Tables, rows: seq<Backup>, vaultKey: seq<byte>, tee: string, net: Network, c: Collation)
    requires Keyed(t) && BackupListing(rows, t, Some(Standby)) && IsCollation(c)
    ensures var p := Succeed(t, rows, vaultKey, tee, net, c);
            var contacted := ContactedIn(p.log);
            && InOrder(contacted, c)
            && (forall b <- contacted :: b.id in t.backups && t.backups[b.id] == b && b.status == Standby)
            && SelectSuccessor(rows, c) == (if contacted == [] then None else Some(contacted[0]))
            && (p.winner.Some? ==> contacted != [] && contacted[|contacted| - 1] == p.winner.value)
            && (forall b <- rows :: b in contacted || (p.winner.Some? && Compare(p.winner.value, b, c) < 0))
  {
    SuccessionRunsTheRanking(t, rows, vaultKey, tee, net, c);
    var cs := Ranked(StandbyOnly(rows), c);
    TriedIsAPrefix(cs, GuardOf(t, vaultKey, tee), net, c);
    forall b <- Tried(cs, GuardOf(t, vaultKey, tee), net) ensures b in rows { assert b in cs; }
  }

  /**
    Of those contacted, exactly the matching ones are sent a payload, and the events that a succession writes
    are one initiation and one completion per acceptance, whatever other events others log meanwhile.
   */
  lemma SuccessionRecord(t: Tables, rows: seq<Backup>, vaultKey: seq<byte>, tee: string, net: Network, c: Collation)
    requires SelectSuccessor(rows, c).Some?
    ensures var p := Succeed(t, rows, vaultKey, tee, net, c);
            var g := GuardOf(t, vaultKey, tee);
            var contacted := ContactedIn(p.log);
            && DeliveredIn(p.log) == Senders(contacted, g, net)
            && AcceptedIn(p.log) == Acceptors(contacted, g, net)
            && (AllDiscreet(contacted, net) ==>
                  OwnEvents(p.tables.events) ==
                  OwnEvents(t.events) + [Event(SuccessionInitiated, None)] + Completions(AcceptedIn(p.log)))
  {
    LoopContract(LogEvent(t, SuccessionInitiated, None), Ranked(StandbyOnly(rows), c), GuardOf(t, vaultKey, tee), net);
    LoggingOwn(t.events, Event(SuccessionInitiated, None));
  }

  lemma FirstPassingIsLeast(cs: seq<Backup>, g: Guard, net: Network, c: Collation)
    requires InOrder(cs, c)
    ensures var k := FirstPassing(cs, g, net);
            && (k == |cs| <==> forall b <- cs :: !Passes(g, net(b)))
            && (k < |cs| ==> Passes(g, net(cs[k])) && forall b <- cs :: Passes(g, net(b)) && b != cs[k] ==> Compare(cs[k], b, c) < 0)
  {
    var k := FirstPassing(cs, g, net);
    FirstPassingIs(cs, g, net);
    if k < |cs| { assert cs[k] in cs; }
    forall b <- cs | Passes(g, net(b)) ensures k < |cs| && (b == cs[k] || Compare(cs[k], b, c) < 0) {
      var j :| 0 <= j < |cs| && cs[j] == b;
    }
  }

  /** The winner is the least standby row that passes; exhaustion means exactly that none passes. */
  lemma WinnerIsLeastPassing(t: Tables, rows: seq<Backup>, vaultKey: seq<byte>, tee: string, net: Network, c: Collation)
    requires Keyed(t) && BackupListing(rows, t, Some(Standby)) && IsCollation(c)
    ensures var winner := Succeed(t, rows, vaultKey, tee, net, c).winner;
            var g := GuardOf(t, vaultKey, tee);
            && (winner == None <==> forall b <- rows :: !Passes(g, net(b)))
            && (winner.Some? ==>
                  && winner.value in rows && Passes(g, net(winner.value))
                  && (forall b <- rows :: Passes(g, net(b)) && b != winner.value ==> Compare(winner.value, b, c) < 0))
  {
    SuccessionRunsTheRanking(t, rows, vaultKey, tee, net, c);
    FirstPassingIsLeast(Ranked(StandbyOnly(rows), c), GuardOf(t, vaultKey, tee), net, c);
  }

  // ----- who wins, in the fields of the turns -----

  /** The candidate answers, with the approved measurement when one is set, and both sides can do their part. */
  predicate Eligible(approved: Option<string>, vaultKey: seq<byte>, turn: Turn) {
    && turn.contact.Answered? && (approved == None || approved.value in {"", turn.contact.rtmr3})
    && turn.contact.x25519.Point? && turn.session.Some? && turn.sign.Some? && |vaultKey| == 32
  }

  predicate Confirms(approved: Option<string>, vaultKey: seq<byte>, turn: Turn) {
    Eligible(approved, vaultKey, turn) && turn.delivery == Confirmed
  }

  /** It confirms, and no registry read of the completion callback throws. */
  ghost predicate Completes(approved: Option<string>, vaultKey: seq<byte>, tee: string, turn: Turn) {
    Confirms(approved, vaultKey, turn) && !ReadThrows(turn.poll, tee)
  }

  lemma TurnInItsFields(g: Guard, turn: Turn)
    ensures Sends(g, turn) <==> Eligible(g.approved, g.vaultKey, turn)
    ensures Accepts(g, turn) <==> Confirms(g.approved, g.vaultKey, turn)
    ensures Timed(turn.poll) ==> (Passes(g, turn) <==> Completes(g.approved, g.vaultKey, g.tee, turn))
  {
    if Timed(turn.poll) { EndingFollowsTheRegistry(turn.poll, g.tee); }
  }

  /**
    Who wins: a candidate is the winner exactly when it stands by, completes, and is ahead of every other one
    that does. Succession is exhausted exactly when none does.
   */
  lemma WinnerExactly(t: Tables, rows: seq<Backup>, vaultKey: seq<byte>, tee: string, net: Network, c: Collation)
    requires Keyed(t) && BackupListing(rows, t, Some(Standby)) && IsCollation(c) && forall b :: Timed(net(b).poll)
    ensures var winner := Succeed(t, rows, vaultKey, tee, net, c).winner;
            var approved := GetConfig(t, AgentRtmr3);
            && (winner == None <==> forall b <- rows :: !Completes(approved, vaultKey, tee, net(b)))
            && (forall b :: winner == Some(b) <==>
                  && b in rows && Completes(approved, vaultKey, tee, net(b))
                  && forall r <- rows :: Completes(approved, vaultKey, tee, net(r)) && r != b ==> Ahead(b, r, c))
  {
    var g := GuardOf(t, vaultKey, tee);
    var winner := Succeed(t, rows, vaultKey, tee, net, c).winner;
    WinnerIsLeastPassing(t, rows, vaultKey, tee, net, c);
    forall b { TurnInItsFields(g, net(b)); }
    forall a, b { CompareIsAhead(a, b, c); }
    if winner.Some? {
      forall b | b in rows && Passes(g, net(b)) && b != winner.value
        ensures !forall r <- rows :: Passes(g, net(r)) && r != b ==> Ahead(b, r, c)
      {
        assert Ahead(winner.value, b, c);
        CompareIsATotalOrder(winner.value, b, b, c);
      }
    }
  }

  function EligibleIn(approved: Option<string>, vaultKey: seq<byte>, net: Network): Trait {
    (b: Backup) => Eligible(approved, vaultKey, net(b))
  }

  function ConfirmsIn(approved: Option<string>, vaultKey: seq<byte>, net: Network): Trait {
    (b: Backup) => Confirms(approved, vaultKey, net(b))
  }

  lemma {:induction false} FilteredInTheirFields(cs: seq<Backup>, g: Guard, net: Network)
    ensures Senders(cs, g, net) == Filter(cs, EligibleIn(g.approved, g.vaultKey, net))
    ensures Acceptors(cs, g, net) == Filter(cs, ConfirmsIn(g.approved, g.vaultKey, net))
  {
    if cs != [] {
      TurnInItsFields(g, net(cs[0]));
      FilteredInTheirFields(cs[1..], g, net);
    }
  }

  /**
    What the wire and the event log show: of those contacted, a payload went to exactly the eligible ones,
    an acceptance is recorded for exactly those that confirmed, a refusal or a lost reply for none.
   */
  lemma RecordExactly(t: Tables, rows: seq<Backup>, vaultKey: seq<byte>, tee: string, net: Network, c: Collation)
    requires SelectSuccessor(rows, c).Some?
    ensures var p := Succeed(t, rows, vaultKey, tee, net, c);
            var approved, contacted := GetConfig(t, AgentRtmr3), ContactedIn(p.log);
            && DeliveredIn(p.log) == Filter(contacted, EligibleIn(approved, vaultKey, net))
            && AcceptedIn(p.log) == Filter(contacted, ConfirmsIn(approved, vaultKey, net))
            && (forall b :: Accepted(b) in p.log ==> net(b).delivery == Confirmed)
            && (AllDiscreet(contacted, net) ==>
                  OwnEvents(p.tables.events) ==
                  OwnEvents(t.events) + [Event(SuccessionInitiated, None)]
                  + Completions(Filter(contacted, ConfirmsIn(approved, vaultKey, net))))
  {
    var p := Succeed(t, rows, vaultKey, tee, net, c);
    SuccessionRecord(t, rows, vaultKey, tee, net, c);
    FilteredInTheirFields(ContactedIn(p.log), GuardOf(t, vaultKey, tee), net);
    forall b | Accepted(b) in p.log ensures net(b).delivery == Confirmed {
      AcceptedIsRead(p.log, b);
      FilterKeeps(ContactedIn(p.log), ConfirmsIn(GetConfig(t, AgentRtmr3), vaultKey, net), b);
    }
  }

  lemma {:induction false} AcceptedIsRead(log: seq<Exchange>, b: Backup)
    requires Accepted(b) in log
    ensures b in AcceptedIn(log)
  {
    if log[0] != Accepted(b) {
      assert log == [log[0]] + log[1..];
      AcceptedIsRead(log[1..], b);
    }
  }

  lemma {:induction false} FilterKeeps(cs: seq<Backup>, q: Trait, b: Backup)
    ensures b in Filter(cs, q) <==> b in cs && q(b)
  {
    if cs != [] {
      assert cs == [cs[0]] + cs[1..];
      FilterKeeps(cs[1..], q, b);
    }
  }

  /**
    Coordination-free convergence: two guardians whose databases hold the same backup rows, listed in any
    order, and which find the same candidates passing, end with the same winner, or both exhausted.
   */
  lemma GuardiansConverge(t1: Tables, rows1: seq<Backup>, key1: seq<byte>, tee1: string, net1: Network,
                          t2: Tables, rows2: seq<Backup>, key2: seq<byte>, tee2: string, net2: Network, c: Collation)
    requires IsCollation(c) && Keyed(t1) && Keyed(t2) && t1.backups == t2.backups
    requires BackupListing(rows1, t1, Some(Standby)) && BackupListing(rows2, t2, Some(Standby))
    requires forall b <- rows1 :: Passes(GuardOf(t1, key1, tee1), net1(b)) <==> Passes(GuardOf(t2, key2, tee2), net2(b))
    ensures Succeed(t1, rows1, key1, tee1, net1, c).winner == Succeed(t2, rows2, key2, tee2, net2, c).winner
  {
    WinnerIsLeastPassing(t1, rows1, key1, tee1, net1, c);
    WinnerIsLeastPassing(t2, rows2, key2, tee2, net2, c);
    assert SameRows(rows1, rows2);
    var w1 := Succeed(t1, rows1, key1, tee1, net1, c).winner;
    var w2 := Succeed(t2, rows2, key2, tee2, net2, c).winner;
    if w1.Some? && w2.Some? && w1 != w2 {
      CompareIsATotalOrder(w1.value, w2.value, w1.value, c);
    }
  }

  // ----- how many candidates does something hold of -----

  type Trait = Backup -> bool

  function Filter(cs: seq<Backup>, q: Trait): seq<Backup> {
    if cs == [] then [] else (if q(cs[0]) then [cs[0]] else []) + Filter(cs[1..], q)
  }

  ghost predicate TwoOf(cs: seq<Backup>, q: Trait) {
    exists i, j :: 0 <= i < j < |cs| && q(cs[i]) && q(cs[j])
  }

  lemma {:induction false} FilterFinds(cs: seq<Backup>, q: Trait)
    ensures Filter(cs, q) != [] <==> exists i :: 0 <= i < |cs| && q(cs[i])
  {
    if cs != [] {
      FilterFinds(cs[1..], q);
      if i :| 0 <= i < |cs[1..]| && q(cs[1..][i]) { assert q(cs[i + 1]); }
      if i :| 0 < i < |cs| && q(cs[i]) { assert q(cs[1..][i - 1]); }
    }
  }

  lemma TwoOfSplits(cs: seq<Backup>, q: Trait)
    requires cs != []
    ensures TwoOf(cs, q) <==> TwoOf(cs[1..], q) || (q(cs[0]) && Filter(cs[1..], q) != [])
  {
    var tail := cs[1..];
    FilterFinds(tail, q);
    if i, j :| 0 <= i < j < |cs| && q(cs[i]) && q(cs[j]) {
      assert q(tail[j - 1]);
      if i > 0 { assert q(tail[i - 1]); }
    }
    if i, j :| 0 <= i < j < |tail| && q(tail[i]) && q(tail[j]) { assert q(cs[i + 1]) && q(cs[j + 1]); }
    if j :| 0 <= j < |tail| && q(tail[j]) { assert q(cs[j + 1]); }
  }

  lemma {:induction false} FilterCounts(cs: seq<Backup>, q: Trait)
    ensures |Filter(cs, q)| > 1 <==> TwoOf(cs, q)
  {
    if cs != [] {
      FilterCounts(cs[1..], q);
      TwoOfSplits(cs, q);
    }
  }

  /** It holds of two candidates, and none in front of the second passes. */
  ghost predicate TwoInTime(cs: seq<Backup>, q: Trait, g: Guard, net: Network) {
    exists i, j :: 0 <= i < j < |cs| && q(cs[i]) && q(cs[j]) && forall k :: 0 <= k < j ==> !Passes(g, net(cs[k]))
  }

  lemma TriedTwo(cs: seq<Backup>, q: Trait, g: Guard, net: Network)
    ensures TwoOf(Tried(cs, g, net), q) <==> TwoInTime(cs, q, g, net)
  {
    var tried, k := Tried(cs, g, net), FirstPassing(cs, g, net);
    FirstPassingIs(cs, g, net);
    if i, j :| 0 <= i < j < |tried| && q(tried[i]) && q(tried[j]) {
      assert tried[i] == cs[i] && tried[j] == cs[j];
    }
    if i, j :| 0 <= i < j < |cs| && q(cs[i]) && q(cs[j]) && forall k :: 0 <= k < j ==> !Passes(g, net(cs[k])) {
      assert j <= k;
      assert tried[i] == cs[i] && tried[j] == cs[j];
    }
  }

  /** Of those that get a turn it holds of more than one, exactly when it holds of two in time. */
  lemma MoreThanOne(cs: seq<Backup>, q: Trait, g: Guard, net: Network)
    ensures |Filter(Tried(cs, g, net), q)| > 1 <==> TwoInTime(cs, q, g, net)
  {
    FilterCounts(Tried(cs, g, net), q);
    TriedTwo(cs, q, g, net);
  }

  function AcceptsIn(g: Guard, net: Network): Trait {
    (b: Backup) => Accepts(g, net(b))
  }

  lemma {:induction false} AcceptorsAreFiltered(cs: seq<Backup>, g: Guard, net: Network)
    ensures Acceptors(cs, g, net) == Filter(cs, AcceptsIn(g, net))
  {
    if cs != [] { AcceptorsAreFiltered(cs[1..], g, net); }
  }

  lemma SoleAcceptance(t: Tables, cs: seq<Backup>, g: Guard, net: Network)
    requires forall b <- cs :: CallbackReturns(g.tee, net(b))
    ensures var p := Candidates(t, cs, g, net); AcceptedIn(p.log) == if p.winner.Some? then [p.winner.value] else []
  {
    LoopContract(t, cs, g, net);
    var k := FirstPassing(cs, g, net);
    FirstPassingIs(cs, g, net);
    forall i | 0 <= i < k ensures !Accepts(g, net(cs[i])) { assert cs[i] in cs; }
    if k < |cs| {
      assert cs[k] in cs;
      OnlyLastAccepts(Tried(cs, g, net), g, net);
    } else {
      NoneAccepts(cs, g, net);
    }
  }

  /**
    When the guardian hears more than one confirmation: exactly when two candidates confirm and, up to the second,
    none passes, which for those that confirm means that their completion callbacks throw. With callbacks that
    return, the winner's confirmation is the only one.
   */
  lemma AcceptancesExactly(t: Tables, cs: seq<Backup>, g: Guard, net: Network)
    ensures var p := Candidates(t, cs, g, net);
            && (|AcceptedIn(p.log)| > 1 <==> TwoInTime(cs, AcceptsIn(g, net), g, net))
            && ((forall b <- cs :: CallbackReturns(g.tee, net(b))) ==>
                  AcceptedIn(p.log) == if p.winner.Some? then [p.winner.value] else [])
  {
    LoopContract(t, cs, g, net);
    AcceptorsAreFiltered(Tried(cs, g, net), g, net);
    MoreThanOne(cs, AcceptsIn(g, net), g, net);
    if forall b <- cs :: CallbackReturns(g.tee, net(b)) { SoleAcceptance(t, cs, g, net); }
  }

  lemma BothAccept(a: Backup, b: Backup, g: Guard, net: Network)
    requires Accepts(g, net(a)) && Accepts(g, net(b)) && !Passes(g, net(a))
    ensures Acceptors(Tried([a, b], g, net), g, net) == [a, b]
  {
    TriedSplits([a, b], g, net);
    TriedSplits([b], g, net);
    assert [a, b][1..] == [b] && [b][1..] == [];
    assert Tried([b], g, net) == [b];
    assert Tried([a, b], g, net) == [a, b];
    FirstTurn(a, [b], g, net);
    FirstTurn(b, [], g, net);
  }

  /** The same turn, but the first registry read of its stand-down poll throws. */
  function Unreadable(turn: Turn): Turn {
    turn.(poll := turn.poll.(registry := (k: nat) => ReadFailed))
  }

  lemma UnreadableThrows(g: Guard, turn: Turn)
    requires Accepts(g, turn) && BeforeDeadline(turn.poll, 0)
    ensures Accepts(g, Unreadable(turn)) && !Passes(g, Unreadable(turn))
  {
    assert BeforeDeadline(Unreadable(turn).poll, 0);
  }

  /** Two candidates that confirm, with the registry unreadable after the first: the guardian accepts both. */
  lemma TwoSuccessors(t: Tables, a: Backup, b: Backup, g: Guard, turn: Turn)
    requires a != b && Accepts(g, turn) && BeforeDeadline(turn.poll, 0)
    ensures var net := (c: Backup) => if c == a then Unreadable(turn) else turn;
            AcceptedIn(Candidates(t, [a, b], g, net).log) == [a, b]
  {
    var net := (c: Backup) => if c == a then Unreadable(turn) else turn;
    UnreadableThrows(g, turn);
    BothAccept(a, b, g, net);
    LoopContract(t, [a, b], g, net);
  }

  lemma {:induction false} NoneAccepts(cs: seq<Backup>, g: Guard, net: Network)
    requires forall i :: 0 <= i < |cs| ==> !Accepts(g, net(cs[i]))
    ensures Acceptors(cs, g, net) == []
  {
    if cs != [] { NoneAccepts(cs[1..], g, net); }
  }

  lemma {:induction false} OnlyLastAccepts(cs: seq<Backup>, g: Guard, net: Network)
    requires cs != [] && Accepts(g, net(cs[|cs| - 1]))
    requires forall i :: 0 <= i < |cs| - 1 ==> !Accepts(g, net(cs[i]))
    ensures Acceptors(cs, g, net) == [cs[|cs| - 1]]
  {
    if |cs| > 1 {
      OnlyLastAccepts(cs[1..], g, net);
    }
  }

  // ----- what is on the wire -----

  /** Same database, but for the snapshot counter and the event log. */
  predicate SameData(a: Tables, b: Tables) {
    && a.guardians == b.guardians && a.backups == b.backups && a.nonces == b.nonces && a.peers == b.peers
    && a.config - {Snap.COUNTER} == b.config - {Snap.COUNTER}
  }

  lemma PayloadOpens(t: Tables, g: Guard, turn: Turn, scalar: nat)
    requires Sends(g, turn)
    ensures var payload := PayloadFor(t, g, turn);
            var shared := Agree(scalar, payload.guardianKey);
            && shared.Some?
            && Open(shared.value, payload.wrappedKey) ==
               (if turn.contact.x25519 == Point(scalar) then Some(g.vaultKey) else None)
            && Snap.Image(payload.snapshot, Raw(g.vaultKey)) == Some(t)
  {
    AgreementIsSymmetricAndTight(turn.session.value, scalar, turn.contact.x25519.secret);
  }

  /** These writers touch nothing but nonces, the snapshot counter and the event log. */
  ghost predicate KeepsData(others: Others) {
    forall t :: SameData(others(t), t)
  }

  ghost predicate Harmless(turn: Turn) {
    KeepsData(turn.whileContacting) && KeepsData(turn.whileSending) && KeepsData(turn.whileCompleting)
  }

  lemma TurnKeepsData(t: Tables, c: Backup, g: Guard, turn: Turn)
    requires Harmless(turn)
    ensures SameData(TablesAfter(t, c, g, turn), t)
  {
    var t1 := turn.whileContacting(t);
    var t2 := if Spends(g, turn) then turn.whileSending(Snap.Bumped(t1)) else t1;
    assert SameData(Snap.Bumped(t1), t1);
    assert SameData(t2, t1);
    assert SameData(LogEvent(t2, SuccessionComplete, Some(c.address)), t2);
  }

  /** The database when the turn of candidate `k` begins. */
  function StateAt(t: Tables, cs: seq<Backup>, g: Guard, net: Network, k: nat): Tables
    requires k < |cs|
    decreases k
  {
    if k == 0 then t else StateAt(TablesAfter(t, cs[0], g, net(cs[0])), cs[1..], g, net, k - 1)
  }

  lemma {:induction false} StateKeepsData(t: Tables, cs: seq<Backup>, g: Guard, net: Network, k: nat)
    requires k < |cs| && forall c <- cs :: Harmless(net(c))
    ensures SameData(StateAt(t, cs, g, net, k), t)
    decreases k
  {
    if k > 0 {
      var first := TablesAfter(t, cs[0], g, net(cs[0]));
      assert cs[0] in cs && forall c <- cs[1..] :: c in cs;
      TurnKeepsData(t, cs[0], g, net(cs[0]));
      StateKeepsData(first, cs[1..], g, net, k - 1);
    }
  }

  /** The payload that the turn of `c` sends when it finds the database as `t`. */
  predicate SentBy(t: Tables, c: Backup, g: Guard, turn: Turn, e: Exchange) {
    Sends(g, turn) && e == Delivered(c, PayloadFor(turn.whileContacting(t), g, turn))
  }

  lemma DeliveredWhere(t: Tables, cs: seq<Backup>, g: Guard, net: Network, e: Exchange)
    requires e in Candidates(t, cs, g, net).log && e.Delivered?
    ensures cs != []
    ensures || SentBy(t, cs[0], g, net(cs[0]), e)
            || e in Candidates(TablesAfter(t, cs[0], g, net(cs[0])), cs[1..], g, net).log
  {
    assert e !in [Contacted(cs[0])] && e !in [Accepted(cs[0])];
  }

  /** A payload in the log is the one of some candidate's turn, made of the database as that turn found it. */
  lemma {:induction false} DeliveredIs(t: Tables, cs: seq<Backup>, g: Guard, net: Network, e: Exchange) returns (k: nat)
    requires e in Candidates(t, cs, g, net).log && e.Delivered?
    ensures k < |cs| && SentBy(StateAt(t, cs, g, net, k), cs[k], g, net(cs[k]), e)
    decreases |cs|
  {
    DeliveredWhere(t, cs, g, net, e);
    if SentBy(t, cs[0], g, net(cs[0]), e) {
      k := 0;
    } else {
      var later := DeliveredIs(TablesAfter(t, cs[0], g, net(cs[0])), cs[1..], g, net, e);
      k := later + 1;
      StateLater(t, cs, g, net, later);
    }
  }

  lemma StateLater(t: Tables, cs: seq<Backup>, g: Guard, net: Network, k: nat)
    requires k + 1 < |cs|
    ensures StateAt(t, cs, g, net, k + 1) == StateAt(TablesAfter(t, cs[0], g, net(cs[0])), cs[1..], g, net, k)
  {
  }

  /**
    Every payload sent lets its addressee, and nobody holding another scalar, unwrap the guardian's vault key,
    and that key opens the snapshot to the guardian's database at the moment it was made: to the data as
    succession began, unless other code wrote to it meanwhile.
   */
  lemma PayloadsOpen(t: Tables, cs: seq<Backup>, g: Guard, net: Network, e: Exchange, scalar: nat) returns (k: nat)
    requires e in Candidates(t, cs, g, net).log && e.Delivered?
    ensures k < |cs| && e.candidate == cs[k] && Eligible(g.approved, g.vaultKey, net(e.candidate))
    ensures var shared := Agree(scalar, e.payload.guardianKey);
            shared.Some? &&
            Open(shared.value, e.payload.wrappedKey) ==
            if net(e.candidate).contact.x25519 == Point(scalar) then Some(g.vaultKey) else None
    ensures var s := e.payload.snapshot;
            s.signedBy == g.tee && s.signature == net(e.candidate).sign.value(Snap.SignedText(s))
    ensures Snap.Image(e.payload.snapshot, Raw(g.vaultKey)) ==
            Some(net(e.candidate).whileContacting(StateAt(t, cs, g, net, k)))
    ensures (forall c <- cs :: Harmless(net(c))) ==>
              SameData(Snap.Image(e.payload.snapshot, Raw(g.vaultKey)).value, t)
  {
    k := DeliveredIs(t, cs, g, net, e);
    TurnInItsFields(g, net(cs[k]));
    PayloadOpens(net(cs[k]).whileContacting(StateAt(t, cs, g, net, k)), g, net(cs[k]), scalar);
    if forall c <- cs :: Harmless(net(c)) {
      assert cs[k] in cs;
      StateKeepsData(t, cs, g, net, k);
    }
  }

  // ----- the measurement of those who are sent the key -----

  /** In this succession the key went only to candidates that answered with the measurement `approved`. */
  ghost predicate OnlyTo(t: Tables, rows: seq<Backup>, vaultKey: seq<byte>, tee: string, net: Network, c: Collation, approved: string) {
    forall e <- Succeed(t, rows, vaultKey, tee, net, c).log ::
      e.Delivered? ==> net(e.candidate).contact.Answered? && net(e.candidate).contact.rtmr3 == approved
  }

  lemma ApprovalHolds(t: Tables, rows: seq<Backup>, vaultKey: seq<byte>, tee: string, net: Network, c: Collation, approved: string)
    requires GetConfig(t, APPROVED_RTMR3) == Some(approved) && approved != ""
    ensures OnlyTo(t, rows, vaultKey, tee, net, c, approved)
  {
    var g := GuardOf(t, vaultKey, tee);
    forall e <- Succeed(t, rows, vaultKey, tee, net, c).log | e.Delivered?
      ensures net(e.candidate).contact.Answered? && net(e.candidate).contact.rtmr3 == approved
    {
      var k := DeliveredIs(LogEvent(t, SuccessionInitiated, None), Ranked(StandbyOnly(rows), c), g, net, e);
    }
  }

  /** A candidate that measures otherwise, but is let through, is sent the key. */
  lemma ApprovalFails(t: Tables, rows: seq<Backup>, vaultKey: seq<byte>, tee: string, c: Collation, approved: string)
    returns (net: Network)
    requires SelectSuccessor(rows, c).Some? && |vaultKey| == 32
    requires GetConfig(t, APPROVED_RTMR3) != Some(approved) || approved == ""
    ensures !OnlyTo(t, rows, vaultKey, tee, net, c, approved) && forall b :: Timed(net(b).poll)
  {
    var configured := GetConfig(t, APPROVED_RTMR3);
    var rtmr3 := if Truthy(configured) then configured.value else approved + "x";
    assert |approved + "x"| > |approved|;
    var quiet: Others := (s: Tables) => s;
    var turn := Turn(Answered(rtmr3, Point(0)), Some(0), Snap.Draw(0, [], ""), Some((text: string) => Snap.BadSignature), Refused,
                     Poll(0, (k: nat) => k * POLL_INTERVAL_MS, (k: nat) => NoRegistry), quiet, quiet, quiet);
    net := (b: Backup) => turn;
    var g := GuardOf(t, vaultKey, tee);
    var cs, t1 := Ranked(StandbyOnly(rows), c), LogEvent(t, SuccessionInitiated, None);
    assert forall k: nat :: SleptAfter(turn.poll, k);
    assert Timed(turn.poll) && Sends(g, turn);
    var e := Delivered(cs[0], PayloadFor(t1, g, turn));
    assert Entries(t1, cs[0], g, turn)[1] == e;
    assert e in Candidates(t1, cs, g, net).log;
  }

  /**
    When the measurement check protects the key: whatever the network does, the key goes only to candidates
    that answer `approved`, exactly when that is what `agent_rtmr3` is set to, and not empty.
   */
  lemma ApprovalExactly(t: Tables, rows: seq<Backup>, vaultKey: seq<byte>, tee: string, c: Collation, approved: string)
    requires SelectSuccessor(rows, c).Some? && |vaultKey| == 32
    ensures (forall net: Network :: OnlyTo(t, rows, vaultKey, tee, net, c, approved)) <==>
            GetConfig(t, APPROVED_RTMR3) == Some(approved) && approved != ""
  {
    if GetConfig(t, APPROVED_RTMR3) == Some(approved) && approved != "" {
      forall net: Network ensures OnlyTo(t, rows, vaultKey, tee, net, c, approved) {
        ApprovalHolds(t, rows, vaultKey, tee, net, c, approved);
      }
    } else {
      var net := ApprovalFails(t, rows, vaultKey, tee, c, approved);
    }
  }
}
