/** The guardian's bounded wait for a new primary: when it polls the registry, and how the wait ends. */
module StandDown {
  import opened Prelude

  const POLL_INTERVAL_MS := 5_000
  const MAX_WAIT_MS := 120_000
  const MAX_READS := 24

  /** One read of the on-chain registry. */
  datatype Reading = NoRegistry | ReadFailed | Live(address: Option<string>)

  /** What `checkAndStandDown` takes for another primary: any live address that is not, as text, this TEE id. */
  predicate Foreign(r: Reading, tee: string) {
    r.Live? && Truthy(r.address) && r.address.value != tee
  }

  /** One stand-down poll: when it started, the clock at each loop test, and what each registry read returned. */
  datatype Poll = Poll(start: int, clock: nat -> int, registry: nat -> Reading)

  datatype Ending = StoodDown | TimedOut | Failed

  predicate BeforeDeadline(p: Poll, k: nat) {
    p.clock(k) < p.start + MAX_WAIT_MS
  }

  predicate SleptAfter(p: Poll, k: nat) {
    p.clock(k) + POLL_INTERVAL_MS <= p.clock(k + 1)
  }

  /** The clock does not run backwards and a sleep lasts at least its interval. */
  ghost predicate Timed(p: Poll) {
    p.start <= p.clock(0) && forall k: nat :: SleptAfter(p, k)
  }

  predicate Quiet(r: Reading, tee: string) {
    !r.ReadFailed? && !Foreign(r, tee)
  }

  /** The loop makes `count` reads, all before the deadline, and ends the way it does because of the last. */
  predicate EndsAfter(p: Poll, tee: string, count: nat, e: Ending) {
    && (forall k :: 0 <= k < count ==> BeforeDeadline(p, k))
    && (forall k :: 0 <= k < count - 1 ==> Quiet(p.registry(k), tee))
    && match e
       case TimedOut => !BeforeDeadline(p, count) && (count > 0 ==> Quiet(p.registry(count - 1), tee))
       case StoodDown => count > 0 && Foreign(p.registry(count - 1), tee)
       case Failed => count > 0 && p.registry(count - 1).ReadFailed?
  }

  lemma {:induction false} ClockAt(p: Poll, k: nat)
    requires Timed(p)
    ensures p.clock(k) >= p.start + k * POLL_INTERVAL_MS
  {
    if k > 0 {
      ClockAt(p, k - 1);
      assert SleptAfter(p, k - 1);
    }
  }

  /** Whatever the registry says, a poll ends within 24 reads, all of them before the deadline. */
  lemma AtMost24Reads(p: Poll, tee: string, count: nat, e: Ending)
    requires Timed(p) && EndsAfter(p, tee, count, e)
    ensures count <= 24
  {
    if count > 0 {
      ClockAt(p, count - 1);
      assert BeforeDeadline(p, count - 1);
    }
  }

  lemma EndingIsUnique(p: Poll, tee: string, count: nat, e: Ending, count': nat, e': Ending)
    requires EndsAfter(p, tee, count, e) && EndsAfter(p, tee, count', e')
    ensures count == count' && e == e'
  {
    assert count < count' ==> BeforeDeadline(p, count);
    assert count' < count ==> BeforeDeadline(p, count');
    assert 0 < count < count' ==> Quiet(p.registry(count - 1), tee);
    assert 0 < count' < count ==> Quiet(p.registry(count' - 1), tee);
  }

  /** It never stood down over this address. */
  ghost predicate NeverOver(tee: string, address: string) {
    forall p: Poll, count: nat :: Timed(p) && EndsAfter(p, tee, count, StoodDown) ==> p.registry(count - 1).address != Some(address)
  }

  /**
    Standing down means that somebody other than `dead` is live exactly when `dead` is empty or is this
    guardian's own TEE id: with any other text the registry's entry for a primary that died counts as a new one.
   */
  lemma StandDownMeansAnotherExactly(tee: string, dead: string)
    ensures NeverOver(tee, dead) <==> dead == "" || dead == tee
  {
    if dead != "" && dead != tee {
      var p := Poll(0, (k: nat) => k * POLL_INTERVAL_MS, (k: nat) => Live(Some(dead)));
      assert forall k: nat :: SleptAfter(p, k);
      assert Timed(p) && EndsAfter(p, tee, 1, StoodDown);
    }
  }

  /** How the poll goes from its loop test `k` on: the ending and the number of reads made by then. */
  function From(p: Poll, tee: string, k: nat): (Ending, nat)
    requires k <= MAX_READS
    decreases MAX_READS - k
  {
    if k == MAX_READS || !BeforeDeadline(p, k) then (TimedOut, k)
    else if p.registry(k).ReadFailed? then (Failed, k + 1)
    else if Foreign(p.registry(k), tee) then (StoodDown, k + 1)
    else From(p, tee, k + 1)
  }

  function EndingOf(p: Poll, tee: string): Ending {
    From(p, tee, 0).0
  }

  lemma {:induction false} FromEnds(p: Poll, tee: string, k: nat)
    requires Timed(p) && k <= MAX_READS && forall i :: 0 <= i < k ==> BeforeDeadline(p, i) && Quiet(p.registry(i), tee)
    ensures EndsAfter(p, tee, From(p, tee, k).1, From(p, tee, k).0)
    decreases MAX_READS - k
  {
    ClockAt(p, k);
    if k < MAX_READS && BeforeDeadline(p, k) && Quiet(p.registry(k), tee) { FromEnds(p, tee, k + 1); }
  }

  lemma EndsThus(p: Poll, tee: string, count: nat, e: Ending)
    requires Timed(p) && EndsAfter(p, tee, count, e)
    ensures count <= MAX_READS && EndingOf(p, tee) == e
  {
    AtMost24Reads(p, tee, count, e);
    FromEnds(p, tee, 0);
    EndingIsUnique(p, tee, count, e, From(p, tee, 0).1, From(p, tee, 0).0);
  }

  /** A poll always ends, and its ending is the one that it is seen to have after some number of reads. */
  lemma EndingExactly(p: Poll, tee: string, e: Ending)
    requires Timed(p)
    ensures EndingOf(p, tee) == e <==> exists count: nat :: EndsAfter(p, tee, count, e)
  {
    FromEnds(p, tee, 0);
    if count: nat :| EndsAfter(p, tee, count, e) {
      EndsThus(p, tee, count, e);
    }
  }

  // ----- the endings in the poll's own fields -----

  /** A registry entry that is there and is not, as text, this TEE id. */
  predicate NamesAnother(r: Reading, tee: string) {
    match r
    case Live(Some(address)) => address != "" && address != tee
    case _ => false
  }

  /** Reads 0 to `k - 1` came back in time and named nobody else. */
  ghost predicate NobodyUntil(p: Poll, tee: string, k: nat) {
    forall i :: 0 <= i < k ==> p.clock(i) < p.start + 120_000 && p.registry(i) != ReadFailed && !NamesAnother(p.registry(i), tee)
  }

  ghost predicate ReadThrows(p: Poll, tee: string) {
    exists k: nat :: NobodyUntil(p, tee, k) && p.clock(k) < p.start + 120_000 && p.registry(k) == ReadFailed
  }

  ghost predicate AnotherIsLive(p: Poll, tee: string) {
    exists k: nat :: NobodyUntil(p, tee, k) && p.clock(k) < p.start + 120_000 && NamesAnother(p.registry(k), tee)
  }

  ghost predicate RunsOut(p: Poll, tee: string) {
    exists k: nat :: NobodyUntil(p, tee, k) && p.clock(k) >= p.start + 120_000
  }

  lemma QuietExactly(r: Reading, tee: string)
    ensures Quiet(r, tee) <==> r != ReadFailed && !NamesAnother(r, tee)
    ensures Foreign(r, tee) <==> NamesAnother(r, tee)
  {
  }

  lemma NobodyIsQuiet(p: Poll, tee: string, k: nat)
    ensures NobodyUntil(p, tee, k) <==> forall i :: 0 <= i < k ==> BeforeDeadline(p, i) && Quiet(p.registry(i), tee)
  {
    if NobodyUntil(p, tee, k) {
      forall i | 0 <= i < k ensures BeforeDeadline(p, i) && Quiet(p.registry(i), tee) { QuietExactly(p.registry(i), tee); }
    }
    if forall i :: 0 <= i < k ==> BeforeDeadline(p, i) && Quiet(p.registry(i), tee) {
      forall i | 0 <= i < k
        ensures p.clock(i) < p.start + 120_000 && p.registry(i) != ReadFailed && !NamesAnother(p.registry(i), tee)
      {
        QuietExactly(p.registry(i), tee);
        assert BeforeDeadline(p, i);
      }
    }
  }

  lemma EndsAfterExactly(p: Poll, tee: string, count: nat, e: Ending)
    ensures EndsAfter(p, tee, count, e) <==>
            match e
            case TimedOut => NobodyUntil(p, tee, count) && p.clock(count) >= p.start + 120_000
            case StoodDown =>
              && count > 0 && NobodyUntil(p, tee, count - 1) && p.clock(count - 1) < p.start + 120_000
              && NamesAnother(p.registry(count - 1), tee)
            case Failed =>
              && count > 0 && NobodyUntil(p, tee, count - 1) && p.clock(count - 1) < p.start + 120_000
              && p.registry(count - 1) == ReadFailed
  {
    NobodyIsQuiet(p, tee, count);
    if count > 0 {
      NobodyIsQuiet(p, tee, count - 1);
      QuietExactly(p.registry(count - 1), tee);
      assert EndsAfter(p, tee, count, e) ==> BeforeDeadline(p, count - 1);
    }
  }

  /** How the wait ends, read off the clock and the registry: whichever comes first of the three. */
  lemma EndingFollowsTheRegistry(p: Poll, tee: string)
    requires Timed(p)
    ensures EndingOf(p, tee) == Failed <==> ReadThrows(p, tee)
    ensures EndingOf(p, tee) == StoodDown <==> AnotherIsLive(p, tee)
    ensures EndingOf(p, tee) == TimedOut <==> RunsOut(p, tee)
  {
    forall count: nat, e { EndsAfterExactly(p, tee, count, e); }
    EndingExactly(p, tee, Failed);
    EndingExactly(p, tee, StoodDown);
    EndingExactly(p, tee, TimedOut);
    if k: nat :| NobodyUntil(p, tee, k) && p.clock(k) < p.start + 120_000 && p.registry(k) == ReadFailed {
      assert EndsAfter(p, tee, k + 1, Failed);
    }
    if k: nat :| NobodyUntil(p, tee, k) && p.clock(k) < p.start + 120_000 && NamesAnother(p.registry(k), tee) {
      assert EndsAfter(p, tee, k + 1, StoodDown);
    }
    if k: nat :| NobodyUntil(p, tee, k) && p.clock(k) >= p.start + 120_000 {
      assert EndsAfter(p, tee, k, TimedOut);
    }
  }
}
