/** The monitor as a failure detector: when a poll raises the alarm, and by when one must. */
module FailureDetector {
  import opened Prelude
  import opened NonceCache
  import opened Heartbeat

  /** What happens at a guardian: a ping arrives, the poll timer fires, or something else writes its database. */
  datatype Moment = PingArrives(nonce: string, timestamp: Stamp, now: int) | PollFires(now: int) | Elsewhere(now: int)

  datatype State = State(last: Option<int>, nonces: Table)

  predicate Accepted(s: State, m: Moment) {
    m.PingArrives? && Nonce(m.nonce) !in s.nonces && Fresh(m.timestamp, m.now)
  }

  ghost predicate Next(s: State, m: Moment, s': State) {
    match m
    case PingArrives(nonce, timestamp, now) =>
      && (exists unseen :: Checked(s.nonces, Some(nonce), now, s'.nonces, unseen))
      && s'.last == if Accepted(s, m) then Some(now) else s.last
    case PollFires(_) => s' == s
    case Elsewhere(_) => s'.last == s.last
  }

  /** A guardian's life since it started, when it had heard no ping. */
  ghost predicate Run(ss: seq<State>, ms: seq<Moment>) {
    && |ss| == |ms| + 1 && ss[0].last == None
    && (forall k :: 0 <= k < |ms| ==> Next(ss[k], ms[k], ss[k + 1]))
    && (forall k, m :: 0 <= k <= m < |ms| ==> ms[k].now <= ms[m].now)
  }

  predicate Alarm(s: State, m: Moment, limit: int) {
    m.PollFires? && Overdue(s.last, limit, m.now)
  }

  /** `a` is the last ping accepted before moment `k`. */
  ghost predicate LastAccepted(ss: seq<State>, ms: seq<Moment>, k: nat, a: nat)
    requires Run(ss, ms) && k <= |ms|
  {
    a < k && Accepted(ss[a], ms[a]) && forall j :: a < j < k ==> !Accepted(ss[j], ms[j])
  }

  lemma LastAcceptedStep(ss: seq<State>, ms: seq<Moment>, k: nat, a: nat)
    requires Run(ss, ms) && k < |ms|
    ensures LastAccepted(ss, ms, k + 1, a) <==> if Accepted(ss[k], ms[k]) then a == k else LastAccepted(ss, ms, k, a)
  {
  }

  /** The last-ping clock shows the arrival of the last accepted ping. */
  lemma {:induction false} ClockIsLastAccepted(ss: seq<State>, ms: seq<Moment>, k: nat, now: int)
    requires Run(ss, ms) && k <= |ms|
    ensures ss[k].last == Some(now) <==> exists a: nat :: LastAccepted(ss, ms, k, a) && ms[a].now == now
  {
    if k > 0 {
      ClockIsLastAccepted(ss, ms, k - 1, now);
      assert Next(ss[k - 1], ms[k - 1], ss[k]);
      forall a: nat
        ensures LastAccepted(ss, ms, k, a) <==> if Accepted(ss[k - 1], ms[k - 1]) then a == k - 1 else LastAccepted(ss, ms, k - 1, a)
      {
        LastAcceptedStep(ss, ms, k - 1, a);
      }
      if Accepted(ss[k - 1], ms[k - 1]) {
        assert LastAccepted(ss, ms, k, k - 1);
      }
    }
  }

  /** No false alarms, and none missed: a poll raises it exactly when the last accepted ping is older than the limit. */
  lemma AlarmExactly(ss: seq<State>, ms: seq<Moment>, limit: int, k: nat)
    requires Run(ss, ms) && k < |ms| && ms[k].PollFires?
    ensures Alarm(ss[k], ms[k], limit) <==>
            exists a: nat :: LastAccepted(ss, ms, k, a) && ms[k].now - ms[a].now > limit
  {
    if ss[k].last.Some? { ClockIsLastAccepted(ss, ms, k, ss[k].last.value); }
    forall a: nat | LastAccepted(ss, ms, k, a) { ClockIsLastAccepted(ss, ms, k, ms[a].now); }
  }

  ghost predicate PollWithin(ms: seq<Moment>, after: int, interval: int) {
    exists k :: 0 <= k < |ms| && ms[k].PollFires? && after < ms[k].now <= after + interval
  }

  /** From `since` to the end of the run, the poll timer fires within every interval. */
  ghost predicate PollsEvery(ms: seq<Moment>, since: int, interval: int) {
    ms != [] && forall x :: since <= x && x + interval <= ms[|ms| - 1].now ==> PollWithin(ms, x, interval)
  }

  /** Every ping after moment `a` replays a cached nonce or is stamped with a number more than 60 s off. */
  ghost predicate OnlyNoiseAfter(ss: seq<State>, ms: seq<Moment>, a: nat)
    requires Run(ss, ms)
  {
    forall j :: a < j < |ms| && ms[j].PingArrives? ==> Nonce(ms[j].nonce) in ss[j].nonces || !Fresh(ms[j].timestamp, ms[j].now)
  }

  lemma SilenceIsSeen(ss: seq<State>, ms: seq<Moment>, limit: nat, interval: nat, since: int, a: nat)
    requires Run(ss, ms) && a < |ms| && Accepted(ss[a], ms[a]) && OnlyNoiseAfter(ss, ms, a)
    requires since <= ms[a].now + limit && PollsEvery(ms, since, interval)
    requires ms[a].now + limit + interval <= ms[|ms| - 1].now
    ensures exists k :: a < k < |ms| && ms[k].now <= ms[a].now + limit + interval && Alarm(ss[k], ms[k], limit)
  {
    var due := ms[a].now + limit;
    assert PollWithin(ms, due, interval);
    var k :| 0 <= k < |ms| && ms[k].PollFires? && due < ms[k].now <= due + interval;
    assert a < k;
    assert LastAccepted(ss, ms, k, a);
    AlarmExactly(ss, ms, limit, k);
  }

  /**
    Detection time. Once the last ping has been accepted and only noise follows, and if the run lasts that
    long, a poll no later than (threshold + 1) intervals after that ping raises the alarm: no number of
    replayed pings, or of pings stamped too early or too late, postpones it.
   */
  lemma SilenceIsDetected(ss: seq<State>, ms: seq<Moment>, threshold: nat, interval: nat, since: int, a: nat)
    requires Run(ss, ms) && a < |ms| && Accepted(ss[a], ms[a]) && OnlyNoiseAfter(ss, ms, a)
    requires since <= ms[a].now + threshold * interval && PollsEvery(ms, since, interval)
    requires ms[a].now + (threshold + 1) * interval <= ms[|ms| - 1].now
    ensures exists k :: a < k < |ms| && ms[k].now <= ms[a].now + (threshold + 1) * interval
                     && Alarm(ss[k], ms[k], threshold * interval)
  {
    var limit := threshold * interval;
    assert limit >= 0 && (threshold + 1) * interval == limit + interval;
    SilenceIsSeen(ss, ms, limit, interval, since, a);
  }

  // ----- replayed pings -----

  function CallOf(s: State, m: Moment): Call {
    if m.PingArrives? then Call(Some(m.nonce), m.timestamp, m.now, Nonce(m.nonce) !in s.nonces) else Idle
  }

  ghost function CachesOf(ss: seq<State>): seq<Table> {
    seq(|ss|, i requires 0 <= i < |ss| => ss[i].nonces)
  }

  ghost function CallsOf(ss: seq<State>, ms: seq<Moment>): seq<Call>
    requires Run(ss, ms)
  {
    seq(|ms|, i requires 0 <= i < |ms| => CallOf(ss[i], ms[i]))
  }

  /** The replay bound: a ping counts twice only past 9000 other stored rows and, stamped with a number, within 120 s. */
  lemma PingReplayBound(ss: seq<State>, ms: seq<Moment>, i: nat, j: nat)
    requires Run(ss, ms) && i < j < |ms| && Accepted(ss[i], ms[i]) && Accepted(ss[j], ms[j])
    requires ms[i].nonce == ms[j].nonce && ms[i].timestamp == ms[j].timestamp
    requires forall k :: 0 <= k < |ms| && ms[k].Elsewhere? ==> ss[k + 1].nonces == ss[k].nonces
    ensures ms[i].timestamp != NotANumber ==> ms[j].now - ms[i].now <= 120_000
    ensures |OthersStored(CachesOf(ss), CallsOf(ss, ms), i, j)| >= 9000
  {
    var tables, calls := CachesOf(ss), CallsOf(ss, ms);
    forall k | 0 <= k < |calls| ensures Moves(tables[k], calls[k], tables[k + 1]) {
      assert Next(ss[k], ms[k], ss[k + 1]);
    }
    assert calls[i] == CallOf(ss[i], ms[i]) && calls[j] == CallOf(ss[j], ms[j]);
    ReplayBound(tables, calls, i, j);
  }

  /** With a new nonce, this ping counts whenever it arrives. */
  ghost predicate CountsAlways(nonce: string, timestamp: Stamp) {
    forall s: State, now: int :: Nonce(nonce) !in s.nonces ==> Accepted(s, PingArrives(nonce, timestamp, now))
  }

  /** The 60 s tolerance keeps away exactly the pings whose timestamp converts to a number; the others postpone the alarm. */
  lemma CountsAlwaysExactly(nonce: string, timestamp: Stamp)
    ensures CountsAlways(nonce, timestamp) <==> timestamp == NotANumber
  {
    if timestamp != NotANumber {
      var empty := State(None, map[]);
      var late := if timestamp.Ms? then timestamp.ms.Floor + TOLERANCE_MS + 1 else 0;
      assert !Accepted(empty, PingArrives(nonce, timestamp, late));
    }
  }
}

/** The guardian's liveness monitor: which pings count, and what a poll does about their absence. */
module LivenessMonitor {
  import opened Prelude
  import opened NonceCache
  import opened Succession
  import Heartbeat
  import FD = FailureDetector
  import DB = ProtocolDatabase

  datatype Ping = Ping(nonce: string, timestamp: Stamp)

  /** What checking a ping's signature yields; the code logs it and goes on in every case. */
  datatype Signature = NoKey | Valid | Invalid | CheckThrew

  class LivenessMonitor {
    const db: DB.Database
    const heartbeat: Heartbeat.HeartbeatManager
    var handler: SuccessionHandler

    constructor (db: DB.Database, heartbeat: Heartbeat.HeartbeatManager, handler: SuccessionHandler)
      ensures this.db == db && this.heartbeat == heartbeat && this.handler == handler
    {
      this.db, this.heartbeat, this.handler := db, heartbeat, handler;
    }

    method SetSuccessionHandler(handler: SuccessionHandler)
      modifies this`handler
      ensures this.handler == handler
    {
      this.handler := handler;
    }

    /** The failure detector's state, as this monitor holds it. */
    function View(): FD.State
      reads this, heartbeat, db
    {
      FD.State(heartbeat.lastPingAt, db.tables.nonces)
    }

    /** A ping moves the last-ping clock exactly when its nonce is new and its stamp is not outside the tolerance. */
    method OnPingReceived(ping: Ping, signature: Signature, now: int, rowid: nat)
      requires Null(rowid) !in db.tables.nonces
      modifies db, heartbeat
      ensures FD.Next(old(View()), FD.PingArrives(ping.nonce, ping.timestamp, now), View())
      ensures db.tables == old(db.tables).(nonces := db.tables.nonces)
      ensures heartbeat.lastPingAt ==
              if && Nonce(ping.nonce) !in old(db.tables.nonces)
                 && (ping.timestamp == NotANumber
                     || (ping.timestamp.Ms? && -60_000.0 <= now as real - ping.timestamp.ms <= 60_000.0)) then Some(now)
              else old(heartbeat.lastPingAt)
    {
      var unseen := db.CheckAndStoreNonce(Some(ping.nonce), now, rowid);
      if !unseen { return; }
      if !Fresh(ping.timestamp, now) { return; }
      match signature {
        case NoKey =>
        case Valid =>
        case Invalid =>     // logged
        case CheckThrew =>  // logged
      }
      heartbeat.OnPingReceived(now);
    }

    /** One tick of the polling timer. */
    method Poll(now: int) returns (called: bool, started: bool)
      modifies handler
      ensures called <==>
                && heartbeat.lastPingAt.Some? && now - heartbeat.lastPingAt.value > heartbeat.threshold * heartbeat.intervalMs
                && !old(handler.inProgress)
      ensures called <==>
                && FD.Alarm(View(), FD.PollFires(now), heartbeat.threshold * heartbeat.intervalMs)
                && !old(handler.inProgress)
      ensures started <==> called && handler.transport && handler.signer
      ensures handler.inProgress <==> old(handler.inProgress) || started
      ensures handler.transport == old(handler.transport) && handler.signer == old(handler.signer)
    {
      called, started := false, false;
      if heartbeat.IsLivenessFailure(now) {
        if !handler.inProgress {
          called := true;
          started := handler.Begin();
        }
      }
    }
  }
}
