/** The fleet controller over whole runs: VM conservation, and what its debounce timer says about the past. */
module FleetHistory {
  import opened Prelude
  import opened Decimal
  import opened ProtocolState
  import opened NetworkManager
  import opened NetworkLaws

  /** When the manager started, and the TVL at which it scales up. */
  datatype Setup = Setup(startedAt: int, tier1: real)

  /** Evaluations do not overlap; between two of them, and at every `await` of one, anything else may write the database. */
  datatype Step = Evaluation(w: Weather, rows: seq<Guardian>, standby: nat) | Other

  ghost predicate SameTimers(t: Tables, t': Tables) {
    GuardianTimers(t') == GuardianTimers(t) && BackupTimers(t') == BackupTimers(t)
  }

  ghost predicate KeepsTimers(others: Others) {
    forall t {:trigger others(t)} :: SameTimers(t, others(t))
  }

  predicate HasId(answer: Option<Vm>) {
    answer.Some? ==> answer.value.id != ""
  }

  /** Nobody but the controller writes its four timers, and VM ids are not empty. */
  ghost predicate Patient(w: Weather) {
    && KeepsTimers(w.whileTvl)
    && (forall i :: KeepsTimers(w.whileCreating(i))) && (forall i :: KeepsTimers(w.whileStopping(i)))
    && (forall i :: KeepsTimers(w.whileCreatingBackup(i))) && KeepsTimers(w.whileStoppingBackup)
    && (forall i :: HasId(w.creates(i))) && (forall i :: HasId(w.backupCreates(i)))
  }

  ghost predicate Next(f: Fleet, s: Setup, step: Step, f': Fleet) {
    match step
    case Evaluation(w, rows, standby) =>
      && Patient(w) && GuardianListing(rows, w.whileTvl(f.tables), None)
      && f' == Evaluated(f, s.startedAt, s.tier1, w, rows, standby).0
    case Other => f'.cloud == f.cloud && SameTimers(f.tables, f'.tables)
  }

  ghost predicate Run(fleets: seq<Fleet>, s: Setup, steps: seq<Step>) {
    && |fleets| == |steps| + 1
    && (forall i :: 0 <= i < |steps| ==> Next(fleets[i], s, steps[i], fleets[i + 1]))
  }

  function ReportOf(f: Fleet, s: Setup, step: Step): Report {
    if step.Other? then Report(Unseen(0), Unseen(0))
    else Evaluated(f, s.startedAt, s.tier1, step.w, step.rows, step.standby).2
  }

  /** The fleet that the guardian section of an evaluation begins with. */
  function Met(f: Fleet, step: Step): Fleet
    requires step.Evaluation?
  {
    Waited(f, step.w.whileTvl)
  }

  /** The guardian section of an evaluation that reaches it. */
  function GuardianRun(f: Fleet, s: Setup, step: Step): Ran
    requires step.Evaluation? && step.w.tvl.Some?
  {
    ManageGuardians(Met(f, step), step.rows, Target(step.w.tvl.value, s.tier1), step.w)
  }

  /** What an evaluation does, section by section. */
  lemma EvaluationSections(f: Fleet, s: Setup, step: Step)
    requires step.Evaluation?
    ensures var r := ReportOf(f, s, step);
            var f' := Evaluated(f, s.startedAt, s.tier1, step.w, step.rows, step.standby).0;
            if !r.guardians.reached then
              && r == Report(Unseen(step.w.clock), Unseen(step.w.backupClock))
              && f' == (if PastGuards(f, s.startedAt, step.w) then Met(f, step) else f)
            else
              && Reaches(f, s.startedAt, step.w)
              && var target := Target(step.w.tvl.value, s.tier1);
              var ran := GuardianRun(f, s, step);
              && r.guardians == GuardianSight(step.rows, target, step.w, ran)
              && if ran.outcome.Threw? then f' == ran.fleet && r.backups == Unseen(step.w.backupClock)
                 else
                   var last := ManageBackups(ran.fleet, step.standby, target, step.w);
                   f' == last.fleet && r.backups == BackupSight(step.standby, target, step.w, last)
  {
  }

  // ----- conservation -----

  /** Nobody else writes the agent's own rows; no VM id comes twice, nor leads to a TEE id that is registered by then. */
  ghost predicate Orderly(f: Fleet, s: Setup, step: Step, f': Fleet) {
    match step
    case Evaluation(w, rows, standby) =>
      PastGuards(f, s.startedAt, w) ==>
        && Stands(f.tables, w.whileTvl(f.tables))
        && (w.tvl.Some? ==>
              var target := Target(w.tvl.value, s.tier1);
              var ran := GuardianRun(f, s, step);
              && SectionOrderly(Met(f, step), rows, target, w)
              && (ran.outcome.Returned? ==> BackupsOrderly(ran.fleet, standby, target, w)))
    case Other => Stands(f.tables, f'.tables)
  }

  ghost predicate OrderlyRun(fleets: seq<Fleet>, s: Setup, steps: seq<Step>) {
    && Run(fleets, s, steps) && Accounted(fleets[0])
    && (forall i :: 0 <= i < |steps| ==> Orderly(fleets[i], s, steps[i], fleets[i + 1]))
  }

  const MOST := 2

  /** The books balance, and no more than two guardian rows become the agent's own. */
  ghost predicate Keeps(f: Fleet, f': Fleet) {
    Accounted(f') && |OwnRows(f'.tables.guardians)| <= Max(MOST, |OwnRows(f.tables.guardians)|)
  }

  lemma SectionKeeps(f: Fleet, rows: seq<Guardian>, target: nat, w: Weather)
    requires Accounted(f) && GuardianListing(rows, f.tables, None) && SectionOrderly(f, rows, target, w) && target <= MOST
    ensures Keeps(f, ManageGuardians(f, rows, target, w).fleet)
  {
    SectionKeepsBooks(f, rows, target, w);
    OwnRowsAreTheRest(f.tables.guardians);
  }

  lemma BackupsKeepOwn(f: Fleet, standby: nat, target: nat, w: Weather)
    requires Accounted(f) && BackupsOrderly(f, standby, target, w)
    ensures Accounted(ManageBackups(f, standby, target, w).fleet)
    ensures OwnRows(ManageBackups(f, standby, target, w).fleet.tables.guardians) == OwnRows(f.tables.guardians)
  {
    BackupSectionConserves(f, standby, target, w);
  }

  lemma EvaluationKeeps(f: Fleet, s: Setup, step: Step, f': Fleet)
    requires Accounted(f) && step.Evaluation? && Next(f, s, step, f') && Orderly(f, s, step, f')
    ensures Keeps(f, f')
  {
    EvaluationSections(f, s, step);
    if PastGuards(f, s.startedAt, step.w) {
      StandingKeepsBooks(f.tables, f.cloud, Met(f, step).tables);
      if step.w.tvl.Some? {
        var target := Target(step.w.tvl.value, s.tier1);
        var ran := GuardianRun(f, s, step);
        SectionKeeps(Met(f, step), step.rows, target, step.w);
        if ran.outcome.Returned? { BackupsKeepOwn(ran.fleet, step.standby, target, step.w); }
      }
    }
  }

  /**
    The tier decides. Both targets are 2 once the TVL has reached the tier, and 1 below it. Towards that number
    the agent's own guardians change: up by what was created, which is all that is missing if the evaluation
    completes; down by no more than the surplus, by all of it or down to none if it completes.
   */
  lemma TierDecides(f: Fleet, s: Setup, step: Step, f': Fleet)
    requires Accounted(f) && step.Evaluation? && Next(f, s, step, f') && Orderly(f, s, step, f')
    requires GetConfig(f.tables, BackupRtmr3) !in {None, Some("")}
    requires step.w.startupClock - s.startedAt >= 1_800_000 && step.w.tvl.Some?
    ensures var r, n := ReportOf(f, s, step), if step.w.tvl.value >= s.tier1 then 2 else 1;
            var met := step.w.whileTvl(f.tables).guardians;
            var before, own, own' := |ActiveIds(met)|, |OwnRows(met)|, |OwnRows(f'.tables.guardians)|;
            var completed := Evaluated(f, s.startedAt, s.tier1, step.w, step.rows, step.standby).1.Returned?;
            && r.guardians.reached && r.guardians.target == n && (r.backups.reached ==> r.backups.target == n)
            && r.guardians.count == before
            && (before < n ==>
                  && own' == own + r.guardians.made && r.guardians.made <= n - before
                  && (completed && r.guardians.made > 0 ==> r.guardians.made == n - before))
            && (before >= n ==>
                  && r.guardians.made == 0 && own - (before - n) <= own' <= own
                  && (completed ==> own' == Max(own - (before - n), 0)))
  {
    var target := Target(step.w.tvl.value, s.tier1);
    var ran := GuardianRun(f, s, step);
    EvaluationSections(f, s, step);
    StandingKeepsBooks(f.tables, f.cloud, Met(f, step).tables);
    ActiveCountIsCardinality(step.rows, Met(f, step).tables);
    SectionKeepsBooks(Met(f, step), step.rows, target, step.w);
    if ran.outcome.Returned? { BackupsKeepOwn(ran.fleet, step.standby, target, step.w); }
  }

  lemma StepKeeps(f: Fleet, s: Setup, step: Step, f': Fleet)
    requires Accounted(f) && Next(f, s, step, f') && Orderly(f, s, step, f')
    ensures Keeps(f, f')
  {
    if step.Evaluation? {
      EvaluationKeeps(f, s, step, f');
    } else {
      StandingKeepsBooks(f.tables, f.cloud, f'.tables);
    }
  }

  lemma {:induction false} RunKeeps(fleets: seq<Fleet>, s: Setup, steps: seq<Step>, i: nat)
    requires OrderlyRun(fleets, s, steps) && i <= |steps|
    ensures Keeps(fleets[0], fleets[i])
  {
    if i > 0 {
      RunKeeps(fleets, s, steps, i - 1);
      StepKeeps(fleets[i - 1], s, steps[i - 1], fleets[i]);
    }
  }

  /**
    Conservation over every run, with VM creation and stopping failing wherever they like and other writers at
    every `await`: the guardian VMs created and not stopped are exactly those of the active agent-provisioned rows.
   */
  lemma VmsAreConserved(fleets: seq<Fleet>, s: Setup, steps: seq<Step>, i: nat)
    requires OrderlyRun(fleets, s, steps) && i <= |steps|
    ensures LiveGuardianVms(fleets[i].cloud) == AgentVms(fleets[i].tables.guardians)
  {
    RunKeeps(fleets, s, steps, i);
    AccountedMeansConserved(fleets[i]);
  }

  lemma {:induction false} NoMoreVmsThanRows(rows: Rows, ids: set<string>)
    requires forall id <- ids :: id in rows && rows[id].vmId.Some?
    ensures |set id | id in ids :: rows[id].vmId.value| <= |ids|
  {
    var vms := set id | id in ids :: rows[id].vmId.value;
    if ids != {} {
      var one :| one in ids;
      var rest := ids - {one};
      var others := set id | id in rest :: rows[id].vmId.value;
      NoMoreVmsThanRows(rows, rest);
      assert vms == others + {rows[one].vmId.value};
    } else {
      assert vms == {};
    }
  }

  lemma NoMoreLiveThanRows(f: Fleet)
    requires Accounted(f)
    ensures |LiveGuardianVms(f.cloud)| <= |OwnRows(f.tables.guardians)|
  {
    var rows := f.tables.guardians;
    AccountedMeansConserved(f);
    NoMoreVmsThanRows(rows, OwnRows(rows));
    assert AgentVms(rows) == set id | id in OwnRows(rows) :: rows[id].vmId.value;
  }

  /** However external guardians come and go and whatever fails, the agent never pays for more than two guardian VMs. */
  lemma AtMostTwoVms(fleets: seq<Fleet>, s: Setup, steps: seq<Step>, i: nat)
    requires OrderlyRun(fleets, s, steps) && i <= |steps| && |OwnRows(fleets[0].tables.guardians)| <= MOST
    ensures |LiveGuardianVms(fleets[i].cloud)| <= MOST
  {
    RunKeeps(fleets, s, steps, i);
    NoMoreLiveThanRows(fleets[i]);
  }

  // ----- the timers -----

  predicate SawDeficit(r: Sight) {
    r.reached && r.count < r.target
  }

  predicate SawEnough(r: Sight) {
    r.reached && r.count >= r.target
  }

  /**
    What one step does to a section's timers, and when the section may create VMs. Nodes enough clear both. In
    a deficit that is not due, the timer starts unless something is pending. In one that is due, a VM that is
    recorded becomes the pending one; a creation that fails before that leaves both timers as they were.
   */
  predicate TimersMove(t: Timers, t': Timers, r: Sight) {
    if !r.reached then r.made == r.recorded == 0 && t' == t
    else if SawEnough(r) then r.made == r.recorded == 0 && t' == Timers(Some(""), Some(""))
    else if !Due(t, r.at) then
      && r.made == r.recorded == 0
      && t' == if !Truthy(t.pending) && !Truthy(t.deficit) then t.(deficit := Some(ToText(r.at))) else t
    else
      && r.recorded <= r.made
      && if r.recorded == 0 then t' == t else Truthy(t'.pending) && (t'.deficit == t.deficit || t'.deficit == Some(""))
  }


  /** Guardians or backups. */
  datatype Section = ForGuardians | ForBackups

  function TimersOf(f: Fleet, of: Section): Timers {
    if of.ForGuardians? then GuardianTimers(f.tables) else BackupTimers(f.tables)
  }

  function OtherThan(of: Section): Section {
    if of.ForGuardians? then ForBackups else ForGuardians
  }

  /** What a stretch of provisioning that recorded so many VMs does to the timers. */
  ghost predicate Pends(of: Section, f: Fleet, f': Fleet, recorded: nat) {
    var t, t' := TimersOf(f, of), TimersOf(f', of);
    && t'.deficit == t.deficit && TimersOf(f', OtherThan(of)) == TimersOf(f, OtherThan(of))
    && if recorded > 0 then Truthy(t'.pending) else t'.pending == t.pending
  }

  ghost predicate Records(of: Section, turn: Turn, f: Fleet, i: nat) {
    var one := turn(f, i);
    && Pends(of, f, one.fleet, one.recorded)
    && one.recorded <= one.made && one.recorded == (if one.outcome.Returned? then 1 else 0)
  }

  /** One creation, which may get as far as recording the VM. */
  lemma OneProvisioning(f: Fleet, w: Weather, i: nat)
    requires Patient(w)
    ensures Records(ForGuardians, Provisioning(w), f, i)
  {
    assert KeepsTimers(w.whileCreating(i)) && HasId(w.creates(i));
    assert SameTimers(f.tables, w.whileCreating(i)(f.tables));
  }

  lemma OneBackupProvisioning(f: Fleet, w: Weather, i: nat)
    requires Patient(w)
    ensures Records(ForBackups, ProvisioningBackups(w), f, i)
  {
    assert KeepsTimers(w.whileCreatingBackup(i)) && HasId(w.backupCreates(i));
    assert SameTimers(f.tables, w.whileCreatingBackup(i)(f.tables));
  }

  lemma {:induction false} RecordingTimers(of: Section, f: Fleet, turn: Turn, i: nat, n: nat)
    requires i <= n && forall g, k :: Records(of, turn, g, k)
    ensures var ran := Turns(f, turn, i, n);
            && Pends(of, f, ran.fleet, ran.recorded)
            && ran.recorded <= ran.made && (ran.outcome.Returned? ==> ran.recorded == n - i)
    decreases n - i
  {
    if i < n {
      assert Records(of, turn, f, i);
      var one := turn(f, i);
      if one.outcome.Returned? { RecordingTimers(of, one.fleet, turn, i + 1, n); }
    }
  }

  lemma DeprovisioningTimers(f: Fleet, g: Guardian, works: bool, others: Others)
    requires SameTimers(f.tables, others(f.tables))
    ensures var one := DeprovisionGuardian(f, g, works, others);
            SameTimers(f.tables, one.fleet.tables) && one.made == one.recorded == 0
  {
  }

  lemma OneRemovalTimers(f: Fleet, gs: seq<Guardian>, w: Weather, i: nat)
    requires Patient(w)
    ensures var one := Removing(gs, w)(f, i); SameTimers(f.tables, one.fleet.tables) && one.made == one.recorded == 0
  {
    assert KeepsTimers(w.whileStopping(i));
    if i < |gs| { DeprovisioningTimers(f, gs[i], w.stops(i), w.whileStopping(i)); }
  }

  lemma {:induction false} RemovalTimers(f: Fleet, gs: seq<Guardian>, w: Weather, i: nat, n: nat)
    requires Patient(w)
    ensures var ran := Turns(f, Removing(gs, w), i, n); SameTimers(f.tables, ran.fleet.tables) && ran.made == ran.recorded == 0
    decreases n - i
  {
    if i < n {
      OneRemovalTimers(f, gs, w, i);
      var one := Removing(gs, w)(f, i);
      if one.outcome.Returned? { RemovalTimers(one.fleet, gs, w, i + 1, n); }
    }
  }

  lemma DeficitMoves(f: Fleet, count: nat, target: nat, w: Weather)
    requires Patient(w) && count < target
    ensures var ran := MakeUp(f, target - count, w);
            && TimersMove(GuardianTimers(f.tables), GuardianTimers(ran.fleet.tables),
                          Sight(w.clock, true, count, target, ran.made, ran.recorded))
            && BackupTimers(ran.fleet.tables) == BackupTimers(f.tables)
  {
    forall g, k ensures Records(ForGuardians, Provisioning(w), g, k) {
      OneProvisioning(g, w, k);
    }
    RecordingTimers(ForGuardians, f, Provisioning(w), 0, target - count);
  }

  lemma SurplusMoves(f: Fleet, rows: seq<Guardian>, target: nat, w: Weather)
    requires Patient(w) && |ActiveRows(rows)| >= target
    ensures var ran := ManageGuardians(f, rows, target, w);
            && TimersMove(GuardianTimers(f.tables), GuardianTimers(ran.fleet.tables), GuardianSight(rows, target, w, ran))
            && BackupTimers(ran.fleet.tables) == BackupTimers(f.tables)
  {
    RemovalTimers(Calm(f), AgentRows(rows), w, 0, Removals(rows, target));
  }

  lemma GuardianSectionMoves(f: Fleet, rows: seq<Guardian>, target: nat, w: Weather)
    requires Patient(w)
    ensures var ran := ManageGuardians(f, rows, target, w);
            && TimersMove(GuardianTimers(f.tables), GuardianTimers(ran.fleet.tables), GuardianSight(rows, target, w, ran))
            && BackupTimers(ran.fleet.tables) == BackupTimers(f.tables)
  {
    if |ActiveRows(rows)| < target {
      DeficitMoves(f, |ActiveRows(rows)|, target, w);
    } else {
      SurplusMoves(f, rows, target, w);
    }
  }

  lemma BackupDeficitMoves(f: Fleet, standby: nat, target: nat, w: Weather)
    requires Patient(w) && standby < target
    ensures var ran := MakeUpBackups(f, target - standby, w);
            && TimersMove(BackupTimers(f.tables), BackupTimers(ran.fleet.tables), BackupSight(standby, target, w, ran))
            && GuardianTimers(ran.fleet.tables) == GuardianTimers(f.tables)
  {
    forall g, k ensures Records(ForBackups, ProvisioningBackups(w), g, k) {
      OneBackupProvisioning(g, w, k);
    }
    RecordingTimers(ForBackups, f, ProvisioningBackups(w), 0, target - standby);
  }

  lemma BackupSectionMoves(f: Fleet, standby: nat, target: nat, w: Weather)
    requires Patient(w)
    ensures var ran := ManageBackups(f, standby, target, w);
            && TimersMove(BackupTimers(f.tables), BackupTimers(ran.fleet.tables), BackupSight(standby, target, w, ran))
            && GuardianTimers(ran.fleet.tables) == GuardianTimers(f.tables)
  {
    if standby < target {
      BackupDeficitMoves(f, standby, target, w);
    } else {
      assert SameTimers(CalmBackups(f).tables, w.whileStoppingBackup(CalmBackups(f).tables));
    }
  }

  lemma EvaluationMovesTimers(f: Fleet, s: Setup, step: Step, f': Fleet)
    requires step.Evaluation? && Next(f, s, step, f')
    ensures var r := ReportOf(f, s, step);
            && TimersMove(GuardianTimers(f.tables), GuardianTimers(f'.tables), r.guardians)
            && TimersMove(BackupTimers(f.tables), BackupTimers(f'.tables), r.backups)
  {
    EvaluationSections(f, s, step);
    assert SameTimers(f.tables, Met(f, step).tables);
    if ReportOf(f, s, step).guardians.reached {
      var target := Target(step.w.tvl.value, s.tier1);
      var ran := GuardianRun(f, s, step);
      GuardianSectionMoves(Met(f, step), step.rows, target, step.w);
      if ran.outcome.Returned? { BackupSectionMoves(ran.fleet, step.standby, target, step.w); }
    }
  }

  lemma StepMovesTimers(f: Fleet, s: Setup, step: Step, f': Fleet)
    requires Next(f, s, step, f')
    ensures var r := ReportOf(f, s, step);
            && TimersMove(GuardianTimers(f.tables), GuardianTimers(f'.tables), r.guardians)
            && TimersMove(BackupTimers(f.tables), BackupTimers(f'.tables), r.backups)
  {
    if step.Evaluation? { EvaluationMovesTimers(f, s, step, f'); }
  }

  // ----- the timeline of a run: timers and sightings of one section, without the tables -----

  ghost predicate Timeline(ts: seq<Timers>, rs: seq<Sight>) {
    |ts| == |rs| + 1 && forall i :: 0 <= i < |rs| ==> TimersMove(ts[i], ts[i + 1], rs[i])
  }

  function SightOf(r: Report, of: Section): Sight {
    if of.ForGuardians? then r.guardians else r.backups
  }

  ghost function TimersOver(fleets: seq<Fleet>, of: Section): seq<Timers> {
    seq(|fleets|, i requires 0 <= i < |fleets| => TimersOf(fleets[i], of))
  }

  ghost function Sights(fleets: seq<Fleet>, s: Setup, steps: seq<Step>, of: Section): (rs: seq<Sight>)
    requires Run(fleets, s, steps)
    ensures |rs| == |steps|
  {
    seq(|steps|, i requires 0 <= i < |steps| => SightOf(ReportOf(fleets[i], s, steps[i]), of))
  }

  lemma RunHasTimeline(fleets: seq<Fleet>, s: Setup, steps: seq<Step>, of: Section)
    requires Run(fleets, s, steps)
    ensures Timeline(TimersOver(fleets, of), Sights(fleets, s, steps, of))
  {
    forall i | 0 <= i < |steps|
      ensures TimersMove(TimersOver(fleets, of)[i], TimersOver(fleets, of)[i + 1], Sights(fleets, s, steps, of)[i])
    {
      StepMovesTimers(fleets[i], s, steps[i], fleets[i + 1]);
    }
  }

  /** From evaluation `e`, which recorded the start of a deficit, every evaluation before `i` that looked saw one too. */
  predicate DeficitSince(rs: seq<Sight>, e: nat, i: nat)
    requires e < i <= |rs|
  {
    SawDeficit(rs[e]) && forall k :: e <= k < i && rs[k].reached ==> SawDeficit(rs[k])
  }

  /** A running timer names the evaluation that started it, and no evaluation since saw enough nodes. */
  lemma {:induction false} TimerRemembers(ts: seq<Timers>, rs: seq<Sight>, i: nat) returns (e: nat)
    requires Timeline(ts, rs) && !Truthy(ts[0].deficit) && i <= |rs| && Truthy(ts[i].deficit)
    ensures e < i && ts[i].deficit == Some(ToText(rs[e].at)) && DeficitSince(rs, e, i)
  {
    assert TimersMove(ts[i - 1], ts[i], rs[i - 1]);
    if Truthy(ts[i - 1].deficit) {
      e := TimerRemembers(ts, rs, i - 1);
    } else {
      e := i - 1;
    }
  }

  /** A pending provisioning stays recorded until an evaluation sees enough nodes. */
  lemma {:induction false} PendingStays(ts: seq<Timers>, rs: seq<Sight>, i: nat, j: nat)
    requires Timeline(ts, rs) && i <= j <= |rs| && Truthy(ts[i].pending)
    requires forall k :: i <= k < j ==> !SawEnough(rs[k])
    ensures Truthy(ts[j].pending)
    decreases j - i
  {
    if i < j {
      assert TimersMove(ts[i], ts[i + 1], rs[i]);
      PendingStays(ts, rs, i + 1, j);
    }
  }

  /** A VM that is recorded blocks every further creation until an evaluation sees enough nodes. */
  lemma PendingBlocks(ts: seq<Timers>, rs: seq<Sight>, i: nat, j: nat)
    requires Timeline(ts, rs) && i < j < |rs| && (Truthy(ts[i].pending) || rs[i].recorded > 0)
    requires forall k :: i <= k < j ==> !SawEnough(rs[k])
    ensures Truthy(ts[j].pending) && rs[j].made == 0
  {
    assert TimersMove(ts[i], ts[i + 1], rs[i]) && TimersMove(ts[j], ts[j + 1], rs[j]);
    PendingStays(ts, rs, i + 1, j);
  }

  /** As long as nothing is recorded, a deficit that an evaluation saw stays on record from the moment it was first noted. */
  lemma {:induction false} DeficitStays(ts: seq<Timers>, rs: seq<Sight>, i: nat, j: nat)
    requires Timeline(ts, rs) && i < j <= |rs| && SawDeficit(rs[i]) && !Truthy(ts[i].pending)
    requires forall k :: i <= k < j ==> !SawEnough(rs[k]) && rs[k].recorded == 0
    ensures !Truthy(ts[j].pending) && Truthy(ts[j].deficit) && ts[j].deficit == ts[i + 1].deficit
  {
    assert TimersMove(ts[j - 1], ts[j], rs[j - 1]);
    if i + 1 < j { DeficitStays(ts, rs, i, j - 1); }
  }

  /**
    When a section tries to make up a deficit: ten minutes after an evaluation that saw it, while no evaluation
    sees enough nodes, exactly if nothing was pending then and no VM has been recorded since.
   */
  lemma TriesExactly(ts: seq<Timers>, rs: seq<Sight>, i: nat, j: nat)
    requires Timeline(ts, rs) && !Truthy(ts[0].deficit) && i < j < |rs| && SawDeficit(rs[i])
    requires forall k :: i <= k < j ==> !SawEnough(rs[k])
    requires forall k :: 0 <= k <= i && rs[k].reached ==> rs[j].at - rs[k].at >= 600_000
    ensures Due(ts[j], rs[j].at) <==> !Truthy(ts[i].pending) && forall k :: i <= k < j ==> rs[k].recorded == 0
  {
    if !Truthy(ts[i].pending) && forall k :: i <= k < j ==> rs[k].recorded == 0 {
      DeficitStays(ts, rs, i, j);
      var e := TimerRemembers(ts, rs, i + 1);
      ParseReadsBack(rs[e].at);
    } else if Truthy(ts[i].pending) {
      PendingBlocks(ts, rs, i, j);
    } else {
      var k :| i <= k < j && rs[k].recorded != 0;
      PendingBlocks(ts, rs, k, j);
    }
  }

  /**
    A VM, for a guardian or for a backup, is created only at least ten minutes after a recorded deficit start,
    with every evaluation since then that got as far as looking, this one included, having seen fewer nodes
    than its target; and never before the startup delay is over and the backups' measurement is locked.
   */
  lemma CreationIsDebounced(fleets: seq<Fleet>, s: Setup, steps: seq<Step>, of: Section, i: nat) returns (e: nat)
    requires Run(fleets, s, steps) && !Truthy(TimersOf(fleets[0], of).deficit) && i < |steps|
    requires Sights(fleets, s, steps, of)[i].made > 0
    ensures var rs := Sights(fleets, s, steps, of);
            e < i && rs[i].at - rs[e].at >= 600_000 && DeficitSince(rs, e, i + 1)
    ensures steps[i].Evaluation? && steps[i].w.startupClock - s.startedAt >= 1_800_000
    ensures Truthy(GetConfig(fleets[i].tables, BackupRtmr3))
  {
    RunHasTimeline(fleets, s, steps, of);
    var ts, rs := TimersOver(fleets, of), Sights(fleets, s, steps, of);
    CreatingIsReaching(fleets[i], s, steps[i], of);
    assert TimersMove(ts[i], ts[i + 1], rs[i]);
    e := TimerRemembers(ts, rs, i);
    ParseReadsBack(rs[e].at);
  }

  lemma CreatingIsReaching(f: Fleet, s: Setup, step: Step, of: Section)
    requires SightOf(ReportOf(f, s, step), of).made > 0
    ensures step.Evaluation? && Reaches(f, s.startedAt, step.w)
  {
  }

  /** Two batches, of which the first was recorded, are separated by an evaluation that saw enough nodes of that kind. */
  lemma BatchesAreSeparated(fleets: seq<Fleet>, s: Setup, steps: seq<Step>, of: Section, i: nat, j: nat)
    requires Run(fleets, s, steps) && i < j < |steps|
    ensures var rs := Sights(fleets, s, steps, of);
            rs[i].recorded > 0 && rs[j].made > 0 ==> exists k :: i < k < j && SawEnough(rs[k])
  {
    RunHasTimeline(fleets, s, steps, of);
    var ts, rs := TimersOver(fleets, of), Sights(fleets, s, steps, of);
    assert TimersMove(ts[i], ts[i + 1], rs[i]);
    if rs[i].recorded > 0 && forall k :: i < k < j ==> !SawEnough(rs[k]) { PendingBlocks(ts, rs, i, j); }
  }

  // ----- when a deficit is made up -----

  /** The guardian section ends with two active guardians when the TVL has reached the tier, and with one below it. */
  ghost predicate MakesUp(f: Fleet, s: Setup, step: Step)
    requires step.Evaluation? && step.w.tvl.Some?
  {
    |ActiveIds(GuardianRun(f, s, step).fleet.tables.guardians)| == if step.w.tvl.value >= s.tier1 then 2 else 1
  }

  /**
    When the guardians' deficit is made up, ten minutes after an evaluation saw it and while no evaluation sees
    enough guardians: exactly if nothing was pending then, no VM has been recorded since, the compose file is
    there and every VM asked for is created. A batch of which only a part was recorded is never completed.
   */
  lemma MadeUpExactly(fleets: seq<Fleet>, s: Setup, steps: seq<Step>, i: nat, j: nat)
    requires Run(fleets, s, steps) && !Truthy(GuardianTimers(fleets[0].tables).deficit) && i < j < |steps|
    requires var rs := Sights(fleets, s, steps, ForGuardians);
             && SawDeficit(rs[i]) && SawDeficit(rs[j]) && (forall k :: i <= k < j ==> !SawEnough(rs[k]))
             && forall k :: 0 <= k <= i && rs[k].reached ==> rs[j].at - rs[k].at >= 600_000
    requires steps[j].Evaluation? && steps[j].w.tvl.Some? && Accounted(Met(fleets[j], steps[j]))
    requires Quiet(Met(fleets[j], steps[j]).tables.guardians, steps[j].w)
    requires SectionOrderly(Met(fleets[j], steps[j]), steps[j].rows, Target(steps[j].w.tvl.value, s.tier1), steps[j].w)
    ensures var rs, met := Sights(fleets, s, steps, ForGuardians), Met(fleets[j], steps[j]).tables;
            MakesUp(fleets[j], s, steps[j]) <==>
            && !Truthy(GuardianTimers(fleets[i].tables).pending) && (forall k :: i <= k < j ==> rs[k].recorded == 0)
            && Truthy(GetConfig(met, GuardianCompose)) && AllAnswered(steps[j].w.creates, rs[j].target - rs[j].count)
  {
    var f, step := fleets[j], steps[j];
    var ts, rs := TimersOver(fleets, ForGuardians), Sights(fleets, s, steps, ForGuardians);
    RunHasTimeline(fleets, s, steps, ForGuardians);
    TriesExactly(ts, rs, i, j);
    EvaluationSections(f, s, step);
    assert Next(f, s, step, fleets[j + 1]);
    assert SameTimers(f.tables, Met(f, step).tables);
    ActiveCountIsCardinality(step.rows, Met(f, step).tables);
    ReachesTargetExactly(Met(f, step), step.rows, Target(step.w.tvl.value, s.tier1), step.w);
  }

  // ----- two inputs -----

  /** Nobody else writes, and the VM service answers as told. */
  function Calls(first: Option<Vm>): Weather {
    var none: nat -> Others := (i: nat) => (t: Tables) => t;
    Weather(0, DEFICIT_DELAY_MS, 0, None, (t: Tables) => t, (i: nat) => if i == 0 then first else None, none,
            (i: nat) => true, none, (i: nat) => None, none, true, (t: Tables) => t)
  }

  /** A deficit noted ten minutes ago, nothing pending, and these guardians. */
  function Lacking(rows: Rows, c: Cloud): Fleet {
    Fleet(EMPTY.(config := map[GuardianCompose := "compose", GuardianDeficitSince := ToText(0)], guardians := rows), c)
  }

  /**
    Two guardians are missing and only the first is created: it is recorded as pending, the section fails, and
    the count stays one short of the target.
   */
  lemma HalfProvisioned(vm: Vm)
    requires vm.id != ""
    ensures var f := Lacking(map[], Cloud({}, map[]));
            var ran := ManageGuardians(f, [], 2, Calls(Some(vm)));
            && ran.outcome.Threw? && ran.made == ran.recorded == 1
            && Truthy(GuardianTimers(ran.fleet.tables).pending) && |ActiveIds(ran.fleet.tables.guardians)| == 1
  {
    ParseReadsBack(0);
    var f, w := Lacking(map[], Cloud({}, map[])), Calls(Some(vm));
    var one := Provisioning(w)(f, 0);
    assert w.creates(0) == Some(vm) && w.whileCreating(0)(f.tables) == f.tables && Truthy(GetConfig(f.tables, GuardianCompose));
    assert !GuardianClash(f.tables, AgentRow(vm, w.clock));
    assert one.fleet.tables.guardians == map[RowId(vm.id) := AgentRow(vm, w.clock)];
    assert Provisioning(w)(one.fleet, 1) == Ran(one.fleet, Threw, 0, 0);
    assert Turns(one.fleet, Provisioning(w), 1, 2) == Ran(one.fleet, Threw, 0, 0);
    assert Turns(f, Provisioning(w), 0, 2) == Ran(one.fleet, Threw, 1, 1);
    assert ActiveIds(one.fleet.tables.guardians) == {RowId(vm.id)};
  }

  /**
    Another node holds the TEE id derived from the new VM: the VM is created and neither recorded nor pending,
    and the next evaluation creates another, with none in between that saw enough guardians.
   */
  lemma ClashedCreatesAgain(vm: Vm, next: Vm, g: Guardian)
    requires vm.id != "" && next.id != vm.id && g.status == Inactive && g.tee == RowTee(vm.id) && g.id != RowId(vm.id)
    ensures var f := Lacking(map[g.id := g], Cloud({}, map[]));
            var first := ManageGuardians(f, [g], 1, Calls(Some(vm)));
            var second := ManageGuardians(first.fleet, [g], 1, Calls(Some(next)));
            && first.made == 1 && first.recorded == 0 && second.made == 1
            && GuardianTimers(first.fleet.tables) == GuardianTimers(f.tables)
  {
    ParseReadsBack(0);
    var f, w, v := Lacking(map[g.id := g], Cloud({}, map[])), Calls(Some(vm)), Calls(Some(next));
    assert g.id in f.tables.guardians && GuardianClash(f.tables, AgentRow(vm, w.clock));
    assert ActiveRows([g][1..]) == [] && ActiveRows([g]) == [];
    var one := Provisioning(w)(f, 0);
    assert w.creates(0) == Some(vm) && w.whileCreating(0)(f.tables) == f.tables && Truthy(GetConfig(f.tables, GuardianCompose));
    assert one == Ran(Fleet(f.tables, Created(f.cloud, vm, GuardianVm)), Threw, 1, 0);
    assert Turns(f, Provisioning(w), 0, 1) == one;
    var two := Provisioning(v)(one.fleet, 0);
    assert v.creates(0) == Some(next) && two.made == 1;
    assert Turns(one.fleet, Provisioning(v), 0, 1).made == 1;
  }
}
