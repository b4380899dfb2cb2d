/**
  The succession handler under interleaving. Between two awaits a call of `initiate` runs alone; at each await
  any other call may start or resume. The flag admits one succession at a time, and each one is short.
 */
module SingleFlight {
  import opened StandDown
  import opened Succession

  const AWAITS := 4  // of a candidate's turn: contact, key generation, snapshot, delivery

  /** Where a started call of `initiate` is suspended. */
  datatype Phase =
    | Trying(await: nat, left: nat)                             // in a candidate's turn, `left` candidates after it
    | Asking(since: int, sent: nat, left: nat)                 // in the stand-down poll, registry read number `sent`
    | Asleep(since: int, sent: nat, slept: int, left: nat)      // between two reads
    | Rejected                                                  // the candidates are exhausted, the catch block is due
    | Leaving                                                   // the flag is down, nothing left but to return
    | Gone

  /** What a suspended call resumes with. */
  datatype News = Fulfilled | Dropped | Read(reading: Reading)

  /** `flights` are the calls that got past the flag, in order of their start. */
  datatype World = World(now: int, inProgress: bool, flights: seq<Phase>)

  datatype Step =
    | Call(transport: bool, signer: bool, candidates: nat, at: int)  // what is set, and the standby backups at that moment
    | Resume(i: nat, news: News, at: int)

  /** The next candidate's turn, or the exhaustion error. */
  function NextTurn(left: nat): Phase {
    if left == 0 then Rejected else Trying(0, left - 1)
  }

  /** The loop test of the stand-down poll. */
  function PollAgain(since: int, sent: nat, now: int, left: nat): Phase {
    if now < since + MAX_WAIT_MS then Asking(since, sent + 1, left) else Leaving
  }

  function Resumed(p: Phase, news: News, tee: string, at: int): Phase {
    match p
    case Trying(await, left) =>
      if !news.Fulfilled? then NextTurn(left)
      else if await + 1 < AWAITS then Trying(await + 1, left)
      else PollAgain(at, 0, at, left)
    case Asking(since, sent, left) =>
      if !news.Read? || news.reading.ReadFailed? then NextTurn(left)
      else if Foreign(news.reading, tee) then Leaving
      else Asleep(since, sent, at, left)
    case Asleep(since, sent, slept, left) => PollAgain(since, sent, at, left)
    case _ => Gone
  }

  /** A succession is running: it may still contact candidates, read the registry or lower the flag. */
  predicate Running(p: Phase) {
    !p.Leaving? && !p.Gone?
  }

  ghost predicate Next(w: World, tee: string, step: Step, w': World) {
    && w.now <= step.at
    && match step
       case Call(transport, signer, candidates, at) =>
         w' == if Starts(w.inProgress, transport, signer) then World(at, true, w.flights + [NextTurn(candidates)])
               else World(at, w.inProgress, w.flights)
       case Resume(i, news, at) =>
         && i < |w.flights| && !w.flights[i].Gone?
         && (w.flights[i].Asleep? ==> w.flights[i].slept + POLL_INTERVAL_MS <= at)
         && var p' := Resumed(w.flights[i], news, tee, at);
         w' == World(at, w.inProgress && !p'.Leaving? && !w.flights[i].Rejected?, w.flights[i := p'])
  }

  ghost predicate Run(ws: seq<World>, tee: string, steps: seq<Step>) {
    && |ws| == |steps| + 1 && !ws[0].inProgress && ws[0].flights == []
    && (forall k :: 0 <= k < |steps| ==> Next(ws[k], tee, steps[k], ws[k + 1]))
  }

  // ----- one at a time -----

  ghost predicate OneAtATime(w: World) {
    && (w.inProgress <==> exists i :: 0 <= i < |w.flights| && Running(w.flights[i]))
    && (forall i, j :: 0 <= i < j < |w.flights| ==> !(Running(w.flights[i]) && Running(w.flights[j])))
  }

  /** When a poll has sent its `sent`-th read, that many sleeps but one have gone by. */
  ghost predicate OnTime(p: Phase, now: int) {
    match p
    case Trying(await, left) => await < AWAITS
    case Asking(since, sent, left) => 0 < sent <= MAX_READS && since + (sent - 1) * POLL_INTERVAL_MS <= now
    case Asleep(since, sent, slept, left) =>
      0 < sent <= MAX_READS && since + (sent - 1) * POLL_INTERVAL_MS <= slept <= now
    case _ => true
  }

  ghost predicate AllOnTime(w: World) {
    forall i :: 0 <= i < |w.flights| ==> OnTime(w.flights[i], w.now)
  }

  lemma NextIsOneAtATime(w: World, tee: string, step: Step, w': World)
    requires OneAtATime(w) && Next(w, tee, step, w')
    ensures OneAtATime(w')
  {
    match step
    case Call(transport, signer, candidates, at) =>
      if Starts(w.inProgress, transport, signer) {
        assert Running(w'.flights[|w.flights|]);
      } else {
        assert w'.flights == w.flights;
      }
    case Resume(i, news, at) =>
      if Running(w.flights[i]) && Running(w'.flights[i]) {
        assert w'.inProgress;
      }
      forall k | 0 <= k < |w.flights| && Running(w'.flights[k])
        ensures Running(w.flights[k])
      {
      }
  }

  lemma NextIsOnTime(w: World, tee: string, step: Step, w': World)
    requires AllOnTime(w) && Next(w, tee, step, w')
    ensures AllOnTime(w')
  {
    if step.Resume? {
      assert OnTime(w.flights[step.i], w.now);
    }
    forall k | 0 <= k < |w'.flights| ensures OnTime(w'.flights[k], w'.now) {
      assert k < |w.flights| ==> OnTime(w.flights[k], w.now);
    }
  }

  /**
    Over every interleaving: the flag is up exactly while a succession is running, never two run at once, and
    no stand-down poll gets beyond its 24th registry read.
   */
  lemma {:induction false} OneSuccessionAtATime(ws: seq<World>, tee: string, steps: seq<Step>, k: nat)
    requires Run(ws, tee, steps) && k <= |steps|
    ensures OneAtATime(ws[k]) && AllOnTime(ws[k])
  {
    if k > 0 {
      OneSuccessionAtATime(ws, tee, steps, k - 1);
      NextIsOneAtATime(ws[k - 1], tee, steps[k - 1], ws[k]);
      NextIsOnTime(ws[k - 1], tee, steps[k - 1], ws[k]);
    }
  }

  // ----- every succession ends -----

  /** How often a call that still has `n` candidates to try can be resumed. */
  function Full(n: nat): nat {
    n * (AWAITS + 2 * MAX_READS) + 1
  }

  ghost function Fuel(p: Phase, now: int): nat
    requires OnTime(p, now)
  {
    match p
    case Trying(await, left) => Full(left) + 2 * MAX_READS + AWAITS - await
    case Asking(since, sent, left) => Full(left) + 2 + 2 * (MAX_READS - sent)
    case Asleep(since, sent, slept, left) => Full(left) + 1 + 2 * (MAX_READS - sent)
    case Rejected => 1
    case Leaving => 1
    case Gone => 0
  }

  function Resumes(step: Step, i: nat): nat {
    if step.Resume? && step.i == i then 1 else 0
  }

  function Resumptions(steps: seq<Step>, i: nat): nat {
    if steps == [] then 0 else Resumptions(steps[..|steps| - 1], i) + Resumes(steps[|steps| - 1], i)
  }

  /** Call `i` has been resumed `used` times, and what it can still be resumed keeps within `full`. */
  ghost predicate Within(w: World, i: nat, used: nat, full: nat) {
    i < |w.flights| && OnTime(w.flights[i], w.now) && used + Fuel(w.flights[i], w.now) <= full
  }

  lemma PhaseBurns(p: Phase, now: int, news: News, tee: string, at: int)
    requires OnTime(p, now) && now <= at && !p.Gone? && (p.Asleep? ==> p.slept + POLL_INTERVAL_MS <= at)
    ensures var p' := Resumed(p, news, tee, at); OnTime(p', at) && Fuel(p', at) < Fuel(p, now)
  {
  }

  lemma ResumingBurns(w: World, tee: string, step: Step, w': World, i: nat, before: seq<Step>, full: nat)
    requires AllOnTime(w) && AllOnTime(w') && Next(w, tee, step, w') && Within(w, i, Resumptions(before, i), full)
    ensures Within(w', i, Resumptions(before + [step], i), full)
  {
    assert (before + [step])[..|before|] == before;
    assert OnTime(w'.flights[i], w'.now);
    if step.Resume? && step.i == i {
      PhaseBurns(w.flights[i], w.now, step.news, tee, step.at);
    } else {
      assert w'.flights[i] == w.flights[i];
    }
  }

  lemma StepIsOnTime(ws: seq<World>, tee: string, steps: seq<Step>, k: nat)
    requires Run(ws, tee, steps) && k < |steps|
    ensures AllOnTime(ws[k]) && AllOnTime(ws[k + 1]) && Next(ws[k], tee, steps[k], ws[k + 1])
  {
    OneSuccessionAtATime(ws, tee, steps, k);
    OneSuccessionAtATime(ws, tee, steps, k + 1);
  }

  lemma StartsFull(w: World, tee: string, step: Step, w': World)
    requires Next(w, tee, step, w') && step.Call? && Starts(w.inProgress, step.transport, step.signer)
    ensures Within(w', |w.flights|, 0, Full(step.candidates))
  {
    assert w'.flights[|w.flights|] == NextTurn(step.candidates);
  }

  /**
    A succession that starts with `n` standby backups is over after at most 52n + 1 resumptions, whatever its
    candidates and the registry answer.
   */
  lemma {:induction false} SuccessionsEnd(ws: seq<World>, tee: string, steps: seq<Step>, start: nat, k: nat)
    requires Run(ws, tee, steps) && start < k <= |steps|
    requires steps[start].Call? && Starts(ws[start].inProgress, steps[start].transport, steps[start].signer)
    ensures var i := |ws[start].flights|;
            Within(ws[k], i, Resumptions(steps[start + 1..k], i), Full(steps[start].candidates))
  {
    var i := |ws[start].flights|;
    StepIsOnTime(ws, tee, steps, k - 1);
    if start + 1 == k {
      StartsFull(ws[start], tee, steps[start], ws[k]);
    } else {
      SuccessionsEnd(ws, tee, steps, start, k - 1);
      var before := steps[start + 1..k - 1];
      ResumingBurns(ws[k - 1], tee, steps[k - 1], ws[k], i, before, Full(steps[start].candidates));
      assert before + [steps[k - 1]] == steps[start + 1..k];
    }
  }

  // ----- the poll of a call is the handler's poll -----

  /** A call in its `k`-th round of the stand-down poll, resumed as the poll `p` goes until it is out of it. */
  function Driven(phase: Phase, p: Poll, tee: string, k: nat): Phase
    requires k <= MAX_READS
    decreases MAX_READS - k, phase.Asking?
  {
    if phase.Asking? then Driven(Resumed(phase, Read(p.registry(k)), tee, p.clock(k)), p, tee, k)
    else if phase.Asleep? && k < MAX_READS then Driven(Resumed(phase, Fulfilled, tee, p.clock(k + 1)), p, tee, k + 1)
    else phase
  }

  lemma {:induction false} RoundIsTheLoops(p: Poll, tee: string, left: nat, k: nat)
    requires Timed(p) && k <= MAX_READS
    ensures Driven(PollAgain(p.start, k, p.clock(k), left), p, tee, k) ==
            if From(p, tee, k).0.Failed? then NextTurn(left) else Leaving
    decreases MAX_READS - k
  {
    ClockAt(p, k);
    if k < MAX_READS && BeforeDeadline(p, k) && Quiet(p.registry(k), tee) {
      RoundIsTheLoops(p, tee, left, k + 1);
      var asking := PollAgain(p.start, k, p.clock(k), left);
      var asleep := Resumed(asking, Read(p.registry(k)), tee, p.clock(k));
      assert Resumed(asleep, Fulfilled, tee, p.clock(k + 1)) == PollAgain(p.start, k + 1, p.clock(k + 1), left);
    }
  }

  /** Resumption by resumption, a call leaves the poll as the handler's loop does: on to the next turn exactly when it fails. */
  lemma PollIsTheHandlers(p: Poll, tee: string, left: nat)
    requires Timed(p)
    ensures Driven(PollAgain(p.start, 0, p.clock(0), left), p, tee, 0) ==
            if EndingOf(p, tee).Failed? then NextTurn(left) else Leaving
  {
    RoundIsTheLoops(p, tee, left, 0);
  }
}
