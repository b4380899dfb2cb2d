/** The fleet controller: debounced provisioning of guardian and backup VMs, and removal of the excess. */
module NetworkManager {
  import opened Prelude
  import opened Decimal
  import opened ProtocolState
  import DB = ProtocolDatabase

  const STARTUP_DELAY_MS := 30 * 60 * 1000
  const DEFICIT_DELAY_MS := 10 * 60 * 1000

  // ----- the VM service -----

  datatype Kind = GuardianVm | BackupVm
  datatype Vm = Vm(id: string, domain: string)

  /** Every id ever handed out, and the machines created and not stopped since. */
  datatype Cloud = Cloud(issued: set<string>, live: map<string, Kind>)

  function Created(c: Cloud, vm: Vm, kind: Kind): Cloud {
    Cloud(c.issued + {vm.id}, c.live[vm.id := kind])
  }

  function Stopped(c: Cloud, id: string): Cloud {
    c.(live := c.live - {id})
  }

  class SecretVmClient {
    var cloud: Cloud

    constructor ()
      ensures cloud == Cloud({}, map[])
    {
      cloud := Cloud({}, map[]);
    }

    method CreateVm(kind: Kind, answer: Option<Vm>) returns (vm: Option<Vm>)
      modifies this
      ensures vm == answer
      ensures cloud == if answer == None then old(cloud) else Created(old(cloud), answer.value, kind)
    {
      vm := answer;
      if vm.Some? {
        cloud := Cloud(cloud.issued + {vm.value.id}, cloud.live[vm.value.id := kind]);
      }
    }

    method StopVm(id: string, works: bool) returns (outcome: Outcome)
      modifies this
      ensures outcome == if works then Returned else Threw
      ensures cloud == if works then Stopped(old(cloud), id) else old(cloud)
    {
      if !works { return Threw; }
      cloud := cloud.(live := cloud.live - {id});
      outcome := Returned;
    }
  }

  // ----- what an evaluation meets -----

  /**
    Clock readings, the TVL source, the VM service's answers to the calls of one evaluation, in order, and what
    other code writes to the database while the evaluation waits for each of them.
   */
  datatype Weather = Weather(
    startupClock: int, clock: int, backupClock: int, tvl: Option<real>, whileTvl: Others,
    creates: nat -> Option<Vm>, whileCreating: nat -> Others, stops: nat -> bool, whileStopping: nat -> Others,
    backupCreates: nat -> Option<Vm>, whileCreatingBackup: nat -> Others, backupStop: bool, whileStoppingBackup: Others)

  datatype Fleet = Fleet(tables: Tables, cloud: Cloud)

  /** Where a stretch of the evaluation ended up, how many VMs it created, and how many of them it recorded. */
  datatype Ran = Ran(fleet: Fleet, outcome: Outcome, made: nat, recorded: nat)

  function Waited(f: Fleet, others: Others): Fleet {
    f.(tables := others(f.tables))
  }

  // ----- guardians -----

  function RowId(vm: string): string { "agent-guardian-" + vm }
  function RowTee(vm: string): string { "tee-" + vm }

  function AgentRow(vm: Vm, now: int): Guardian {
    Guardian(RowId(vm.id), vm.domain + ":8080", RowTee(vm.id), "", now, now, now, Active, Agent, Some(vm.id))
  }

  function ProvisionGuardian(f: Fleet, answer: Option<Vm>, others: Others, now: int): Ran {
    if !Truthy(GetConfig(f.tables, GuardianCompose)) then Ran(f, Threw, 0, 0)
    else if answer == None then Ran(Waited(f, others), Threw, 0, 0)
    else
      var vm, t := answer.value, others(f.tables);
      var cloud := Created(f.cloud, vm, GuardianVm);
      match UpsertGuardian(t, AgentRow(vm, now))
      case None => Ran(Fleet(t, cloud), Threw, 1, 0)
      case Some(t1) =>
        Ran(Fleet(LogEvent(SetConfig(t1, GuardianProvisioningPending, vm.id), GuardianProvisioned, Some("vm:" + vm.id)), cloud),
            Returned, 1, 1)
  }

  /** Two stretches, one after the other. */
  function Then(first: Ran, rest: Ran): Ran {
    Ran(rest.fleet, rest.outcome, first.made + rest.made, first.recorded + rest.recorded)
  }

  type Turn = (Fleet, nat) -> Ran

  /** A loop over turns `i` to `n`, which the first turn that throws ends. */
  function Turns(f: Fleet, turn: Turn, i: nat, n: nat): Ran
    decreases n - i
  {
    if i >= n then Ran(f, Returned, 0, 0)
    else
      var one := turn(f, i);
      if one.outcome.Threw? then one else Then(one, Turns(one.fleet, turn, i + 1, n))
  }

  function Provisioning(w: Weather): Turn {
    (f: Fleet, i: nat) => ProvisionGuardian(f, w.creates(i), w.whileCreating(i), w.clock)
  }

  function DeprovisionGuardian(f: Fleet, g: Guardian, works: bool, others: Others): Ran {
    if Truthy(g.vmId) && !works then Ran(Waited(f, others), Threw, 0, 0)
    else
      var t := if Truthy(g.vmId) then others(f.tables) else f.tables;
      var cloud := if Truthy(g.vmId) then Stopped(f.cloud, g.vmId.value) else f.cloud;
      match UpsertGuardian(t, g.(status := Inactive))
      case None => Ran(Fleet(t, cloud), Threw, 0, 0)
      case Some(t1) =>
        Ran(Fleet(LogEvent(t1, GuardianDeprovisioned, Some("vm:" + if g.vmId.Some? then g.vmId.value else "null")), cloud),
            Returned, 0, 0)
  }

  function Removing(gs: seq<Guardian>, w: Weather): Turn {
    (f: Fleet, i: nat) =>
      if i < |gs| then DeprovisionGuardian(f, gs[i], w.stops(i), w.whileStopping(i)) else Ran(f, Returned, 0, 0)
  }

  function ActiveRows(rows: seq<Guardian>): seq<Guardian> {
    if rows == [] then [] else (if rows[0].status == Active then [rows[0]] else []) + ActiveRows(rows[1..])
  }

  function AgentRows(rows: seq<Guardian>): seq<Guardian> {
    if rows == [] then []
    else (if rows[0].provisionedBy == Agent && rows[0].status == Active then [rows[0]] else []) + AgentRows(rows[1..])
  }

  /** The deficit timer: absent or cleared, still running, or expired. */
  predicate Expired(t: Tables, key: ConfigKey, now: int) {
    && Truthy(GetConfig(t, key))
    && var since := ParseInt(t.config[key]);
    since.Some? && now - since.value >= DEFICIT_DELAY_MS
  }

  /** The fleet once both guardian timers are cleared. */
  function Calm(f: Fleet): Fleet {
    f.(tables := SetConfig(SetConfig(f.tables, GuardianDeficitSince, ""), GuardianProvisioningPending, ""))
  }

  function Removals(rows: seq<Guardian>, target: nat): nat
    requires |ActiveRows(rows)| >= target
  {
    if |ActiveRows(rows)| - target <= |AgentRows(rows)| then |ActiveRows(rows)| - target else |AgentRows(rows)|
  }

  function MakeUp(f: Fleet, missing: nat, w: Weather): Ran {
    if Truthy(GetConfig(f.tables, GuardianProvisioningPending)) then Ran(f, Returned, 0, 0)
    else if !Truthy(GetConfig(f.tables, GuardianDeficitSince)) then
      Ran(f.(tables := SetConfig(f.tables, GuardianDeficitSince, ToText(w.clock))), Returned, 0, 0)
    else if Expired(f.tables, GuardianDeficitSince, w.clock) then
      var ran := Turns(f, Provisioning(w), 0, missing);
      if ran.outcome.Threw? then ran
      else ran.(fleet := ran.fleet.(tables := SetConfig(ran.fleet.tables, GuardianDeficitSince, "")))
    else Ran(f, Returned, 0, 0)
  }

  function ManageGuardians(f: Fleet, rows: seq<Guardian>, target: nat, w: Weather): Ran {
    if |ActiveRows(rows)| < target then MakeUp(f, target - |ActiveRows(rows)|, w)
    else Turns(Calm(f), Removing(AgentRows(rows), w), 0, Removals(rows, target))
  }

  // ----- backups -----

  function ProvisionBackup(f: Fleet, answer: Option<Vm>, others: Others): Ran {
    if !Truthy(GetConfig(f.tables, AgentCompose)) then Ran(f, Threw, 0, 0)
    else if answer == None then Ran(Waited(f, others), Threw, 0, 0)
    else
      var vm := answer.value;
      var tables := SetConfig(SetConfig(others(f.tables), AgentBackupVmId, vm.id), BackupProvisioningPending, vm.id);
      Ran(Fleet(tables, Created(f.cloud, vm, BackupVm)), Returned, 1, 1)
  }

  function ProvisioningBackups(w: Weather): Turn {
    (f: Fleet, i: nat) => ProvisionBackup(f, w.backupCreates(i), w.whileCreatingBackup(i))
  }

  function CalmBackups(f: Fleet): Fleet {
    f.(tables := SetConfig(SetConfig(f.tables, BackupDeficitSince, ""), BackupProvisioningPending, ""))
  }

  function MakeUpBackups(f: Fleet, missing: nat, w: Weather): Ran {
    if Truthy(GetConfig(f.tables, BackupProvisioningPending)) then Ran(f, Returned, 0, 0)
    else if !Truthy(GetConfig(f.tables, BackupDeficitSince)) then
      Ran(f.(tables := SetConfig(f.tables, BackupDeficitSince, ToText(w.backupClock))), Returned, 0, 0)
    else if Expired(f.tables, BackupDeficitSince, w.backupClock) then
      var ran := Turns(f, ProvisioningBackups(w), 0, missing);
      if ran.outcome.Threw? then ran
      else ran.(fleet := ran.fleet.(tables := SetConfig(ran.fleet.tables, BackupDeficitSince, "")))
    else Ran(f, Returned, 0, 0)
  }

  function ManageBackups(f: Fleet, standby: nat, target: nat, w: Weather): Ran {
    if standby < target then MakeUpBackups(f, target - standby, w)
    else
      var calm := CalmBackups(f);
      var vm := GetConfig(calm.tables, AgentBackupVmId);
      if standby > target && Truthy(vm) then
        var waited := Waited(calm, w.whileStoppingBackup);
        if w.backupStop then
          Ran(Fleet(SetConfig(waited.tables, AgentBackupVmId, ""), Stopped(waited.cloud, vm.value)), Returned, 0, 0)
        else Ran(waited, Threw, 0, 0)
      else Ran(calm, Returned, 0, 0)
  }

  // ----- one evaluation -----

  /** What a section saw and did; `reached` is false when the evaluation ended in front of it. */
  datatype Sight = Sight(at: int, reached: bool, count: nat, target: nat, made: nat, recorded: nat)

  datatype Report = Report(guardians: Sight, backups: Sight)

  function Unseen(at: int): Sight {
    Sight(at, false, 0, 0, 0, 0)
  }

  predicate PastGuards(f: Fleet, startedAt: int, w: Weather) {
    Truthy(GetConfig(f.tables, BackupRtmr3)) && w.startupClock - startedAt >= STARTUP_DELAY_MS
  }

  predicate Reaches(f: Fleet, startedAt: int, w: Weather) {
    PastGuards(f, startedAt, w) && w.tvl.Some?
  }

  function Target(tvl: real, tier1: real): nat {
    if tvl >= tier1 then 2 else 1
  }

  function GuardianSight(rows: seq<Guardian>, target: nat, w: Weather, ran: Ran): Sight {
    Sight(w.clock, true, |ActiveRows(rows)|, target, ran.made, ran.recorded)
  }

  function BackupSight(standby: nat, target: nat, w: Weather, ran: Ran): Sight {
    Sight(w.backupClock, true, standby, target, ran.made, ran.recorded)
  }

  /** A whole evaluation, given what its two SELECTs returned. */
  function Evaluated(f: Fleet, startedAt: int, tier1: real, w: Weather, rows: seq<Guardian>, standby: nat)
    : (Fleet, Outcome, Report)
  {
    var nothing := Report(Unseen(w.clock), Unseen(w.backupClock));
    if !PastGuards(f, startedAt, w) then (f, Returned, nothing)
    else
      var f1 := Waited(f, w.whileTvl);
      if w.tvl == None then (f1, Threw, nothing)
      else
        var target := Target(w.tvl.value, tier1);
        var ran := ManageGuardians(f1, rows, target, w);
        var sight := GuardianSight(rows, target, w, ran);
        if ran.outcome.Threw? then (ran.fleet, Threw, nothing.(guardians := sight))
        else
          var last := ManageBackups(ran.fleet, standby, target, w);
          (last.fleet, last.outcome, Report(sight, BackupSight(standby, target, w, last)))
  }

  /** Whatever else other writers do, the database keeps its keys. */
  ghost predicate KeepsKeys(others: Others) {
    forall t :: Keyed(t) ==> Keyed(others(t))
  }

  ghost predicate AllKeepKeys(w: Weather) {
    && KeepsKeys(w.whileTvl)
    && (forall i :: KeepsKeys(w.whileCreating(i)))
    && (forall i :: KeepsKeys(w.whileStopping(i)))
  }

  class NetworkManager {
    const db: DB.Database
    const client: SecretVmClient
    const startedAt: int
    const tvlTier1: real

    constructor (db: DB.Database, client: SecretVmClient, startedAt: int, tvlTier1: real)
      ensures this.db == db && this.client == client && this.startedAt == startedAt && this.tvlTier1 == tvlTier1
    {
      this.db, this.client, this.startedAt, this.tvlTier1 := db, client, startedAt, tvlTier1;
    }

    function State(): Fleet
      reads db, client
    {
      Fleet(db.tables, client.cloud)
    }

    /**
      `rows` and `standby` are what the two SELECTs returned: the first before the guardian section, the
      second, unless that section throws, after it.
     */
    method Evaluate(w: Weather)
      returns (outcome: Outcome, report: Report, rows: seq<Guardian>, standby: seq<Backup>)
      requires Keyed(db.tables) && AllKeepKeys(w)
      modifies db, client
      ensures (State(), outcome, report) == Evaluated(old(State()), startedAt, tvlTier1, w, rows, |standby|)
      ensures report.guardians.reached <==>
                && GetConfig(old(db.tables), BackupRtmr3) !in {None, Some("")}
                && w.startupClock - startedAt >= 1_800_000 && w.tvl != None
      ensures report.backups.reached ==> report.guardians.reached
      ensures report.guardians.reached ==> report.guardians.target == if w.tvl.value >= tvlTier1 then 2 else 1
      ensures report.backups.reached ==> report.backups.target == if w.tvl.value >= tvlTier1 then 2 else 1
      ensures report.guardians.reached ==> GuardianListing(rows, w.whileTvl(old(db.tables)), None)
      ensures report.backups.reached ==>
                var ran := ManageGuardians(Waited(old(State()), w.whileTvl), rows, report.guardians.target, w);
                BackupListing(standby, ran.fleet.tables, Some(Standby))
    {
      rows, standby := [], [];
      report := Report(Unseen(w.clock), Unseen(w.backupClock));
      outcome := Returned;
      var locked := GetConfig(db.tables, BackupRtmr3);
      if !Truthy(locked) { return; }
      if w.startupClock - startedAt < STARTUP_DELAY_MS { return; }
      db.Await(w.whileTvl);
      if w.tvl == None { outcome := Threw; return; }
      var target := if w.tvl.value >= tvlTier1 then 2 else 1;
      rows := db.ListGuardians(None);
      ghost var met := State();
      var made, recorded;
      outcome, made, recorded := RunGuardians(rows, target, w);
      report := report.(guardians := Sight(w.clock, true, |ActiveRows(rows)|, target, made, recorded));
      if outcome.Threw? { return; }
      StillKeyed(met, rows, target, w);
      standby := db.ListBackups(Some(Standby));
      outcome, made, recorded := RunBackups(|standby|, target, w);
      report := report.(backups := Sight(w.backupClock, true, |standby|, target, made, recorded));
    }

    method RunGuardians(rows: seq<Guardian>, target: nat, w: Weather) returns (outcome: Outcome, made: nat, recorded: nat)
      modifies db, client
      ensures Ran(State(), outcome, made, recorded) == ManageGuardians(old(State()), rows, target, w)
    {
      outcome, made, recorded := Returned, 0, 0;
      var active := |ActiveRows(rows)|;
      if active < target {
        if Truthy(GetConfig(db.tables, GuardianProvisioningPending)) { return; }
        var since := GetConfig(db.tables, GuardianDeficitSince);
        if !Truthy(since) {
          db.SetConfig(GuardianDeficitSince, ToText(w.clock));
        } else if Expired(db.tables, GuardianDeficitSince, w.clock) {
          outcome, made, recorded := ProvisionMany(target - active, w);
          if outcome.Threw? { return; }
          db.SetConfig(GuardianDeficitSince, "");
        }
      } else {
        db.SetConfig(GuardianDeficitSince, "");
        db.SetConfig(GuardianProvisioningPending, "");
        var agents := AgentRows(rows);
        if active > target && |agents| > 0 {
          outcome := DeprovisionMany(agents, if active - target <= |agents| then active - target else |agents|, w);
        }
      }
    }

    method ProvisionMany(needed: nat, w: Weather) returns (outcome: Outcome, made: nat, recorded: nat)
      modifies db, client
      ensures Ran(State(), outcome, made, recorded) == Turns(old(State()), Provisioning(w), 0, needed)
    {
      outcome, made, recorded := Returned, 0, 0;
      ghost var all := Turns(State(), Provisioning(w), 0, needed);
      var i := 0;
      while i < needed
        invariant 0 <= i <= needed && outcome.Returned?
        invariant all == Then(Ran(State(), Returned, made, recorded), Turns(State(), Provisioning(w), i, needed))
      {
        var one, kept;
        outcome, one, kept := ProvisionOne(w.creates(i), w.whileCreating(i), w.clock);
        made, recorded := made + one, recorded + kept;
        if outcome.Threw? { return; }
        i := i + 1;
      }
    }

    method DeprovisionMany(agents: seq<Guardian>, toRemove: nat, w: Weather) returns (outcome: Outcome)
      requires toRemove <= |agents|
      modifies db, client
      ensures Ran(State(), outcome, 0, 0) == Turns(old(State()), Removing(agents, w), 0, toRemove)
    {
      outcome := Returned;
      ghost var all := Turns(State(), Removing(agents, w), 0, toRemove);
      var i := 0;
      while i < toRemove
        invariant 0 <= i <= toRemove && outcome.Returned?
        invariant all == Turns(State(), Removing(agents, w), i, toRemove)
      {
        outcome := DeprovisionOne(agents[i], w.stops(i), w.whileStopping(i));
        if outcome.Threw? { return; }
        i := i + 1;
      }
    }

    method ProvisionOne(answer: Option<Vm>, others: Others, now: int) returns (outcome: Outcome, made: nat, recorded: nat)
      modifies db, client
      ensures Ran(State(), outcome, made, recorded) == ProvisionGuardian(old(State()), answer, others, now)
      ensures recorded == 1 ==>
                && answer.Some?
                && var vm, id := answer.value, "agent-guardian-" + answer.value.id;
                && client.cloud.live == old(client.cloud.live)[vm.id := GuardianVm]
                && id in db.tables.guardians
                && var admittedAt := db.tables.guardians[id].admittedAt;
                && db.tables.guardians[id] ==
                   Guardian(id, vm.domain + ":8080", "tee-" + vm.id, "", admittedAt, now, now, Active, Agent, Some(vm.id))
                && GetConfig(db.tables, GuardianProvisioningPending) == Some(vm.id)
                && db.tables.events == others(old(db.tables)).events + [Event(GuardianProvisioned, Some("vm:" + vm.id))]
    {
      if !Truthy(GetConfig(db.tables, GuardianCompose)) { return Threw, 0, 0; }
      var vm := client.CreateVm(GuardianVm, answer);
      db.Await(others);
      if vm == None { return Threw, 0, 0; }
      outcome := db.UpsertGuardian(AgentRow(vm.value, now));
      if outcome.Threw? { return Threw, 1, 0; }
      db.SetConfig(GuardianProvisioningPending, vm.value.id);
      db.LogEvent(GuardianProvisioned, Some("vm:" + vm.value.id));
      made, recorded := 1, 1;
    }

    method DeprovisionOne(g: Guardian, works: bool, others: Others) returns (outcome: Outcome)
      modifies db, client
      ensures Ran(State(), outcome, 0, 0) == DeprovisionGuardian(old(State()), g, works, others)
      ensures outcome.Returned? ==>
                && g.id in db.tables.guardians && db.tables.guardians[g.id].status == Inactive
                && db.tables.events != []
                && db.tables.events[|db.tables.events| - 1] ==
                   Event(GuardianDeprovisioned, Some("vm:" + if g.vmId == None then "null" else g.vmId.value))
                && client.cloud.live ==
                   if g.vmId !in {None, Some("")} then old(client.cloud.live) - {g.vmId.value} else old(client.cloud.live)
    {
      if Truthy(g.vmId) {
        outcome := client.StopVm(g.vmId.value, works);
        db.Await(others);
        if outcome.Threw? { return; }
      }
      outcome := db.UpsertGuardian(g.(status := Inactive));
      if outcome.Threw? { return; }
      db.LogEvent(GuardianDeprovisioned, Some("vm:" + if g.vmId.Some? then g.vmId.value else "null"));
    }

    method RunBackups(standby: nat, target: nat, w: Weather) returns (outcome: Outcome, made: nat, recorded: nat)
      modifies db, client
      ensures Ran(State(), outcome, made, recorded) == ManageBackups(old(State()), standby, target, w)
    {
      outcome, made, recorded := Returned, 0, 0;
      if standby < target {
        if Truthy(GetConfig(db.tables, BackupProvisioningPending)) { return; }
        var since := GetConfig(db.tables, BackupDeficitSince);
        if !Truthy(since) {
          db.SetConfig(BackupDeficitSince, ToText(w.backupClock));
        } else if Expired(db.tables, BackupDeficitSince, w.backupClock) {
          outcome, made := ProvisionBackupVms(target - standby, w);
          recorded := made;
          if outcome.Threw? { return; }
          db.SetConfig(BackupDeficitSince, "");
        }
      } else {
        db.SetConfig(BackupDeficitSince, "");
        db.SetConfig(BackupProvisioningPending, "");
        var vm := GetConfig(db.tables, AgentBackupVmId);
        if standby > target && Truthy(vm) {
          outcome := client.StopVm(vm.value, w.backupStop);
          db.Await(w.whileStoppingBackup);
          if outcome.Threw? { return; }
          db.SetConfig(AgentBackupVmId, "");
        }
      }
    }

    method ProvisionBackupVms(needed: nat, w: Weather) returns (outcome: Outcome, made: nat)
      modifies db, client
      ensures Ran(State(), outcome, made, made) == Turns(old(State()), ProvisioningBackups(w), 0, needed)
    {
      outcome, made := Returned, 0;
      ghost var all := Turns(State(), ProvisioningBackups(w), 0, needed);
      var i := 0;
      while i < needed
        invariant 0 <= i <= needed && outcome.Returned?
        invariant all == Then(Ran(State(), Returned, made, made), Turns(State(), ProvisioningBackups(w), i, needed))
      {
        var one;
        outcome, one := ProvisionOneBackup(w.backupCreates(i), w.whileCreatingBackup(i));
        made := made + one;
        if outcome.Threw? { return; }
        i := i + 1;
      }
    }

    method ProvisionOneBackup(answer: Option<Vm>, others: Others) returns (outcome: Outcome, made: nat)
      modifies db, client
      ensures Ran(State(), outcome, made, made) == ProvisionBackup(old(State()), answer, others)
      ensures made == 1 ==>
                && answer.Some? && client.cloud.live == old(client.cloud.live)[answer.value.id := BackupVm]
                && GetConfig(db.tables, AgentBackupVmId) == Some(answer.value.id)
                && GetConfig(db.tables, BackupProvisioningPending) == Some(answer.value.id)
    {
      if !Truthy(GetConfig(db.tables, AgentCompose)) { return Threw, 0; }
      var vm := client.CreateVm(BackupVm, answer);
      db.Await(others);
      if vm == None { return Threw, 0; }
      db.SetConfig(AgentBackupVmId, vm.value.id);
      db.SetConfig(BackupProvisioningPending, vm.value.id);
      outcome, made := Returned, 1;
    }
  }

  // ----- the tables keep their keys -----

  /** What every turn keeps, the loop keeps. */
  lemma {:induction false} TurnsKeep(f: Fleet, turn: Turn, i: nat, n: nat, inv: Fleet -> bool)
    requires inv(f) && forall g, k :: inv(g) ==> inv(turn(g, k).fleet)
    ensures inv(Turns(f, turn, i, n).fleet)
    decreases n - i
  {
    if i < n {
      var one := turn(f, i);
      if one.outcome.Returned? { TurnsKeep(one.fleet, turn, i + 1, n, inv); }
    }
  }

  lemma ProvisioningKeepsKeys(f: Fleet, w: Weather, i: nat)
    requires Keyed(f.tables) && AllKeepKeys(w)
    ensures Keyed(Provisioning(w)(f, i).fleet.tables)
  {
    assert KeepsKeys(w.whileCreating(i));
    var t := w.whileCreating(i)(f.tables);
    if w.creates(i).Some? { GuardianUpsertKeepsKeys(t, AgentRow(w.creates(i).value, w.clock)); }
  }

  lemma RemovalKeepsKeys(f: Fleet, g: Guardian, works: bool, others: Others)
    requires Keyed(f.tables) && KeepsKeys(others)
    ensures Keyed(DeprovisionGuardian(f, g, works, others).fleet.tables)
  {
    GuardianUpsertKeepsKeys(f.tables, g.(status := Inactive));
    GuardianUpsertKeepsKeys(others(f.tables), g.(status := Inactive));
  }

  lemma StillKeyed(f: Fleet, rows: seq<Guardian>, target: nat, w: Weather)
    requires Keyed(f.tables) && AllKeepKeys(w)
    ensures Keyed(ManageGuardians(f, rows, target, w).fleet.tables)
  {
    var inv := (g: Fleet) => Keyed(g.tables);
    if |ActiveRows(rows)| < target {
      forall g, k: nat | inv(g) ensures inv(Provisioning(w)(g, k).fleet) { ProvisioningKeepsKeys(g, w, k); }
      TurnsKeep(f, Provisioning(w), 0, target - |ActiveRows(rows)|, inv);
    } else {
      forall g, k: nat | inv(g) ensures inv(Removing(AgentRows(rows), w)(g, k).fleet) {
        if k < |AgentRows(rows)| { RemovalKeepsKeys(g, AgentRows(rows)[k], w.stops(k), w.whileStopping(k)); }
      }
      TurnsKeep(Calm(f), Removing(AgentRows(rows), w), 0, Removals(rows, target), inv);
    }
  }
}
