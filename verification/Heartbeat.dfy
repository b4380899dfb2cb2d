/** Heartbeats: the primary's ping rounds and the backups' streak counters, the guardian's last-ping clock. */
module Heartbeat {
  import opened Prelude
  import opened ProtocolState
  import Admission
  import DB = ProtocolDatabase

  datatype Participant = Participant(id: string, address: string, isBackup: bool)

  /** One settled promise of a round: rejected, or fulfilled with the acknowledgement. */
  datatype Settled = RejectedPromise | Fulfilled(who: Participant, success: bool)

  /** Everyone in these rows is pinged, each row once, backups before guardians. */
  ghost predicate Pings(ps: seq<Participant>, backups: seq<Backup>, guardians: seq<Guardian>) {
    && |ps| == |backups| + |guardians|
    && (forall i :: 0 <= i < |backups| ==> ps[i] == Participant(backups[i].id, backups[i].address, true))
    && (forall i :: 0 <= i < |guardians| ==> ps[|backups| + i] == Participant(guardians[i].id, guardians[i].address, false))
  }

  function Everyone(backups: seq<Backup>, guardians: seq<Guardian>): (ps: seq<Participant>)
    ensures Pings(ps, backups, guardians)
  {
    seq(|backups|, i requires 0 <= i < |backups| => Participant(backups[i].id, backups[i].address, true))
    + seq(|guardians|, i requires 0 <= i < |guardians| => Participant(guardians[i].id, guardians[i].address, false))
  }

  /** One turn of the loop over the settled results. */
  function ResultApplied(t: Tables, r: Settled, at: int): Tables {
    if r.RejectedPromise? || !r.who.isBackup then t
    else if r.success then IncrementStreak(t, r.who.id, at)
    else LogEvent(ResetStreak(t, r.who.id, at), HeartbeatReset, Some(r.who.id))
  }

  function RoundApplied(t: Tables, results: seq<Settled>, at: int): Tables {
    if results == [] then t
    else ResultApplied(RoundApplied(t, results[..|results| - 1], at), results[|results| - 1], at)
  }

  /** The primary has been silent for longer than `limit`; before its first ping it is never overdue. */
  predicate Overdue(last: Option<int>, limit: int, now: int) {
    last.Some? && now - last.value > limit
  }

  class HeartbeatManager {
    const intervalMs: int
    const threshold: int
    const db: DB.Database
    var lastPingAt: Option<int>

    constructor (intervalMs: int, threshold: int, db: DB.Database)
      ensures this.intervalMs == intervalMs && this.threshold == threshold && this.db == db && lastPingAt == None
    {
      this.intervalMs, this.threshold, this.db, this.lastPingAt := intervalMs, threshold, db, None;
    }

    /** The first stretch of `pingAll`: everyone pinged this round, each row once, backups before guardians. */
    method Participants() returns (ps: seq<Participant>)
      requires Keyed(db.tables)
      ensures exists backups: seq<Backup>, guardians: seq<Guardian> ::
                && BackupListing(backups, db.tables, Some(Standby)) && GuardianListing(guardians, db.tables, Some(Active))
                && Pings(ps, backups, guardians)
    {
      var backups := db.ListBackups(Some(Standby));
      var guardians := db.ListGuardians(Some(Active));
      ps := Everyone(backups, guardians);
    }

    /** The second stretch: the loop over the settled results. */
    method ApplyResults(results: seq<Settled>, now: int)
      modifies db
      ensures db.tables == RoundApplied(old(db.tables), results, now)
    {
      var i := 0;
      while i < |results|
        invariant 0 <= i <= |results| && db.tables == RoundApplied(old(db.tables), results[..i], now)
      {
        assert results[..i + 1][..i] == results[..i];
        var result := results[i];
        i := i + 1;
        if result.RejectedPromise? { continue; }
        if result.who.isBackup {
          if result.success {
            db.IncrementStreak(result.who.id, now);
          } else {
            db.ResetStreak(result.who.id, now);
            db.LogEvent(HeartbeatReset, Some(result.who.id));
          }
        }
      }
      assert results[..i] == results;
    }

    method OnPingReceived(now: int)
      modifies this`lastPingAt
      ensures lastPingAt == Some(now)
    {
      lastPingAt := Some(now);
    }

    predicate IsLivenessFailure(now: int)
      reads this`lastPingAt
    {
      Overdue(lastPingAt, threshold * intervalMs, now)
    }
  }
}

/** The stored counters agree with the history of pings and admissions, and so does the successor they select. */
module HeartbeatLaws {
  import opened Prelude
  import opened ProtocolState
  import opened Heartbeat
  import opened Selector
  import Admission

  /** What can happen to the streak counters: a ping's promise is settled, or a node is registered. */
  datatype Happening = Pinged(result: Settled) | Admitted(req: Admission.Request, rtmr3: string)

  /** An admission that hits another row's TEE id throws and changes nothing. */
  function Happened(t: Tables, h: Happening, at: int): Tables {
    match h
    case Pinged(result) => ResultApplied(t, result, at)
    case Admitted(req, rtmr3) =>
      var written := Admission.Registered(t, req, rtmr3, at);
      if written == None then t else written.value
  }

  /** A happening and when it was written. */
  type History = seq<(Happening, int)>

  function After(t: Tables, h: History): Tables {
    if h == [] then t else Happened(After(t, h[..|h| - 1]), h[|h| - 1].0, h[|h| - 1].1)
  }

  predicate Admits(h: Happening, id: string) {
    h.Admitted? && h.req.role == Admission.AsBackup && h.req.tee == id
  }

  /** The backup `id` answered a ping, with success or without. */
  predicate Answers(h: Happening, id: string, success: bool) {
    && h.Pinged? && h.result.Fulfilled? && h.result.success == success
    && h.result.who.isBackup && h.result.who.id == id
  }

  /** A failed ping or a (re)admission: the current run starts over. */
  predicate Breaks(h: Happening, id: string) {
    Admits(h, id) || Answers(h, id, false)
  }

  function Acks(h: History, id: string): nat {
    if h == [] then 0 else Acks(h[..|h| - 1], id) + if Answers(h[|h| - 1].0, id, true) then 1 else 0
  }

  /** `s` is the position of the last break for `id`. */
  ghost predicate LastBreak(h: History, id: string, s: nat) {
    s < |h| && Breaks(h[s].0, id) && forall k :: s < k < |h| ==> !Breaks(h[k].0, id)
  }

  ghost predicate FirstAdmission(h: History, id: string, f: nat) {
    f < |h| && Admits(h[f].0, id) && forall k :: 0 <= k < f ==> !Admits(h[k].0, id)
  }

  /** Without other tables in play: an admission registers a row under its own TEE id. */
  ghost predicate OwnTee(t: Tables) {
    forall id <- t.backups :: t.backups[id].id == id && t.backups[id].tee == id && t.backups[id].status == Standby
  }

  /** What a happening does to one backup's row. */
  ghost predicate Counts(t: Tables, h: Happening, at: int, id: string, t': Tables) {
    && (id in t'.backups <==> id in t.backups || Admits(h, id))
    && (id in t.backups ==>
          && t'.backups[id].registeredAt == t.backups[id].registeredAt
          && t'.backups[id].streak ==
             (if Breaks(h, id) then 0 else t.backups[id].streak + if Answers(h, id, true) then 1 else 0)
          && t'.backups[id].lastHeartbeatAt ==
             (if Breaks(h, id) || Answers(h, id, true) then at else t.backups[id].lastHeartbeatAt))
    && (id !in t.backups && Admits(h, id) ==> t'.backups[id].registeredAt == at && t'.backups[id].streak == 0)
  }

  lemma StreakTo(t: Tables, of: string, streak: int, at: int)
    requires OwnTee(t) && of in t.backups
    ensures var t' := SetStreak(t, of, streak, at);
            && OwnTee(t') && t'.backups.Keys == t.backups.Keys
            && t'.backups[of] == t.backups[of].(streak := streak, lastHeartbeatAt := at)
            && (forall id <- t.backups :: id != of ==> t'.backups[id] == t.backups[id])
  {
  }

  lemma CountsForOthers(t: Tables, h: Happening, at: int, id: string, t': Tables)
    requires t'.backups == t.backups && h.Pinged?
    requires id in t.backups ==> !Answers(h, id, true) && !Answers(h, id, false)
    ensures Counts(t, h, at, id, t')
  {
  }

  lemma PingedTo(t: Tables, r: Settled, at: int, id: string)
    requires OwnTee(t)
    ensures var t' := ResultApplied(t, r, at); OwnTee(t') && Counts(t, Pinged(r), at, id, t')
  {
    if r.Fulfilled? && r.who.isBackup && r.who.id in t.backups {
      StreakTo(t, r.who.id, if r.success then t.backups[r.who.id].streak + 1 else 0, at);
    } else {
      CountsForOthers(t, Pinged(r), at, id, ResultApplied(t, r, at));
    }
  }

  lemma UpsertedTo(t: Tables, req: Admission.Request, rtmr3: string, at: int)
    requires OwnTee(t)
    ensures var written := UpsertBackup(t, Admission.BackupRow(req, rtmr3, at));
            written.Some? && OwnTee(written.value)
  {
  }

  lemma RegisteredBackups(t: Tables, req: Admission.Request, rtmr3: string, at: int)
    ensures var written := Admission.Registered(t, req, rtmr3, at);
            if req.role == Admission.AsBackup then
              var row := UpsertBackup(t, Admission.BackupRow(req, rtmr3, at));
              written.Some? == row.Some? && (row.Some? ==> written.value.backups == row.value.backups)
            else written.Some? ==> written.value.backups == t.backups
  {
  }

  lemma HappenedTo(t: Tables, h: Happening, at: int, id: string)
    requires OwnTee(t)
    ensures OwnTee(Happened(t, h, at)) && Counts(t, h, at, id, Happened(t, h, at))
  {
    match h
    case Pinged(r) => PingedTo(t, r, at, id);
    case Admitted(req, rtmr3) =>
      RegisteredBackups(t, req, rtmr3, at);
      if req.role == Admission.AsBackup { UpsertedTo(t, req, rtmr3, at); }
  }

  /**
    A backup is in the table once it has been admitted; its counter is the number of pings it acknowledged
    since its last failed ping or (re)admission, and its registration time that of its first admission.
   */
  lemma {:induction false} CounterIsHistory(h: History, id: string)
    ensures var t := After(EMPTY, h);
            && OwnTee(t)
            && (id in t.backups <==> exists f: nat :: FirstAdmission(h, id, f))
            && (id in t.backups ==>
                  && (forall f: nat :: FirstAdmission(h, id, f) ==> t.backups[id].registeredAt == h[f].1)
                  && (exists s: nat :: LastBreak(h, id, s))
                  && (forall s: nat :: LastBreak(h, id, s) ==> t.backups[id].streak == Acks(h[s + 1..], id)))
  {
    if h != [] {
      var n := |h| - 1;
      var front, last := h[..n], h[n];
      CounterIsHistory(front, id);
      var t0 := After(EMPTY, front);
      HappenedTo(t0, last.0, last.1, id);
      FirstAdmissionStep(h, id);
      LastBreakStep(h, id);
      if Breaks(last.0, id) {
        assert LastBreak(h, id, n);
      } else if id in t0.backups {
        var s: nat :| LastBreak(front, id, s);
        assert LastBreak(h, id, s);
      }
      forall f: nat | FirstAdmission(h, id, f) && id in After(EMPTY, h).backups
        ensures After(EMPTY, h).backups[id].registeredAt == h[f].1
      {
        assert f < n ==> FirstAdmission(front, id, f);
      }
      forall s: nat | LastBreak(h, id, s) && id in After(EMPTY, h).backups
        ensures After(EMPTY, h).backups[id].streak == Acks(h[s + 1..], id)
      {
        if s < n {
          assert LastBreak(front, id, s);
          assert h[s + 1..][..|h[s + 1..]| - 1] == front[s + 1..];
        } else {
          assert h[s + 1..] == [];
        }
      }
    }
  }

  lemma FirstAdmissionStep(h: History, id: string)
    requires h != []
    ensures var front, n := h[..|h| - 1], |h| - 1;
            && (forall f: nat :: FirstAdmission(front, id, f) ==> FirstAdmission(h, id, f))
            && (forall f: nat :: FirstAdmission(h, id, f) ==> FirstAdmission(front, id, f) || f == n)
            && (FirstAdmission(h, id, n) <==> Admits(h[n].0, id) && forall f: nat :: !FirstAdmission(front, id, f))
  {
    var front, n := h[..|h| - 1], |h| - 1;
    if k: nat :| k < n && Admits(h[k].0, id) {
      var f := Earliest(front, id, k);
    }
  }

  lemma {:induction false} Earliest(h: History, id: string, k: nat) returns (f: nat)
    requires k < |h| && Admits(h[k].0, id)
    ensures FirstAdmission(h, id, f)
  {
    f := 0;
    while !Admits(h[f].0, id)
      invariant 0 <= f <= k && forall j :: 0 <= j < f ==> !Admits(h[j].0, id)
      decreases k - f
    {
      f := f + 1;
    }
  }

  lemma LastBreakStep(h: History, id: string)
    requires h != []
    ensures var front, n := h[..|h| - 1], |h| - 1;
            && (Breaks(h[n].0, id) ==> forall s: nat :: LastBreak(h, id, s) <==> s == n)
            && (!Breaks(h[n].0, id) ==> forall s: nat :: LastBreak(h, id, s) <==> LastBreak(front, id, s))
  {
  }

  /** A ping round of the manager, result by result. */
  function Settling(results: seq<Settled>, at: int): (h: History)
    ensures |h| == |results| && forall i :: 0 <= i < |h| ==> h[i] == (Pinged(results[i]), at)
  {
    if results == [] then [] else Settling(results[..|results| - 1], at) + [(Pinged(results[|results| - 1]), at)]
  }

  lemma {:induction false} RoundIsHistory(t: Tables, results: seq<Settled>, at: int)
    ensures RoundApplied(t, results, at) == After(t, Settling(results, at))
  {
    if results != [] {
      var n := |results| - 1;
      RoundIsHistory(t, results[..n], at);
      assert Settling(results, at)[..n] == Settling(results[..n], at);
    }
  }

  // ----- whole lives: rounds of the manager and admissions, in any order -----

  datatype Occasion = Round(results: seq<Settled>, at: int) | Admission(req: Admission.Request, rtmr3: string, at: int)

  function Lived(life: seq<Occasion>): Tables {
    if life == [] then EMPTY
    else
      var t := Lived(life[..|life| - 1]);
      match life[|life| - 1]
      case Round(results, at) => RoundApplied(t, results, at)
      case Admission(req, rtmr3, at) => Happened(t, Admitted(req, rtmr3), at)
  }

  function HistoryOf(life: seq<Occasion>): History {
    if life == [] then []
    else
      HistoryOf(life[..|life| - 1])
      + match life[|life| - 1]
        case Round(results, at) => Settling(results, at)
        case Admission(req, rtmr3, at) => [(Admitted(req, rtmr3), at)]
  }

  lemma {:induction false} AfterSplits(t: Tables, a: History, b: History)
    ensures After(t, a + b) == After(After(t, a), b)
  {
    if b == [] {
      assert a + b == a;
    } else {
      assert (a + b)[..|a + b| - 1] == a + b[..|b| - 1];
      AfterSplits(t, a, b[..|b| - 1]);
    }
  }

  lemma {:induction false} LifeIsHistory(life: seq<Occasion>)
    ensures Lived(life) == After(EMPTY, HistoryOf(life))
  {
    if life != [] {
      var front, last := life[..|life| - 1], life[|life| - 1];
      LifeIsHistory(front);
      match last
      case Round(results, at) =>
        RoundIsHistory(Lived(front), results, at);
        AfterSplits(EMPTY, HistoryOf(front), Settling(results, at));
      case Admission(req, rtmr3, at) =>
        assert HistoryOf(life)[..|HistoryOf(life)| - 1] == HistoryOf(front);
    }
  }

  /**
    Over every sequence of rounds and admissions: a stored streak is the number of the backup's fulfilled
    promises with success since its last one without, or its last (re)admission. Rejected promises and the
    guardians' results count for nothing.
   */
  lemma StreakIsSuccesses(life: seq<Occasion>, id: string, s: nat)
    requires id in Lived(life).backups && LastBreak(HistoryOf(life), id, s)
    ensures Lived(life).backups[id].streak == Acks(HistoryOf(life)[s + 1..], id)
  {
    LifeIsHistory(life);
    CounterIsHistory(HistoryOf(life), id);
  }

  // ----- the event log -----

  /** The reset events of a log. */
  function ResetsIn(es: seq<Event>): seq<Event> {
    if es == [] then []
    else ResetsIn(es[..|es| - 1]) + if es[|es| - 1].kind == HeartbeatReset then [es[|es| - 1]] else []
  }

  /** The failed pings of backups, in order. */
  function FailedPings(h: History): seq<Event> {
    if h == [] then []
    else
      var last := h[|h| - 1].0;
      FailedPings(h[..|h| - 1])
      + if last.Pinged? && last.result.Fulfilled? && last.result.who.isBackup && !last.result.success then
          [Event(HeartbeatReset, Some(last.result.who.id))]
        else []
  }

  lemma OneMoreEvent(es: seq<Event>, e: Event)
    ensures ResetsIn(es + [e]) == ResetsIn(es) + if e.kind == HeartbeatReset then [e] else []
  {
    assert (es + [e])[..|es|] == es;
  }

  lemma RegistrationEvents(t: Tables, req: Admission.Request, rtmr3: string, at: int)
    ensures var written := Admission.Registered(t, req, rtmr3, at);
            written.Some? ==> ResetsIn(written.value.events) == ResetsIn(t.events)
  {
    OneMoreEvent(t.events, Event(EventKind.Admission, Some("guardian:" + req.tee)));
    OneMoreEvent(t.events, Event(EventKind.Admission, Some("backup:" + req.tee)));
  }

  lemma EventsOf(t: Tables, h: Happening, at: int)
    ensures ResetsIn(Happened(t, h, at).events) ==
            ResetsIn(t.events)
            + if h.Pinged? && h.result.Fulfilled? && h.result.who.isBackup && !h.result.success then
                [Event(HeartbeatReset, Some(h.result.who.id))]
              else []
  {
    match h
    case Pinged(r) =>
      if r.Fulfilled? { OneMoreEvent(t.events, Event(HeartbeatReset, Some(r.who.id))); }
    case Admitted(req, rtmr3) => RegistrationEvents(t, req, rtmr3, at);
  }

  lemma {:induction false} ResetsAreLogged(t: Tables, h: History)
    ensures ResetsIn(After(t, h).events) == ResetsIn(t.events) + FailedPings(h)
  {
    if h != [] {
      ResetsAreLogged(t, h[..|h| - 1]);
      EventsOf(After(t, h[..|h| - 1]), h[|h| - 1].0, h[|h| - 1].1);
    }
  }

  /**
    The successor selected from the stored counters is a backup whose current run of successful pings is
    longest; among those, one admitted first; among those, the one with the lowest TEE id.
   */
  lemma LongestRunIsSelected(life: seq<Occasion>, rows: seq<Backup>, c: Collation, other: Backup, s: nat, o: nat, sa: nat, oa: nat)
    requires IsCollation(c) && BackupListing(rows, Lived(life), Some(Standby))
    requires SelectSuccessor(rows, c).Some? && other in rows && other != SelectSuccessor(rows, c).value
    requires var id, h := SelectSuccessor(rows, c).value.id, HistoryOf(life);
             && LastBreak(h, id, s) && LastBreak(h, other.id, o)
             && FirstAdmission(h, id, sa) && FirstAdmission(h, other.id, oa)
    ensures var id, h := SelectSuccessor(rows, c).value.id, HistoryOf(life);
            var run, otherRun := Acks(h[s + 1..], id), Acks(h[o + 1..], other.id);
            || run > otherRun
            || (run == otherRun && h[sa].1 < h[oa].1)
            || (run == otherRun && h[sa].1 == h[oa].1 && c(id, other.id) < 0)
  {
    var chosen := SelectSuccessor(rows, c).value;
    LifeIsHistory(life);
    CounterIsHistory(HistoryOf(life), other.id);
    CounterIsHistory(HistoryOf(life), chosen.id);
    forall i, j | 0 <= i < j < |rows| ensures rows[i].tee != rows[j].tee {
      assert rows[i] in rows && rows[j] in rows;
    }
    SuccessorIsLeast(rows, c);
  }
}
