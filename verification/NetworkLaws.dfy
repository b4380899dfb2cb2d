/** VM accounting and convergence of the guardian count, over whatever fails and whoever else writes. */
module NetworkLaws {
  import opened Prelude
  import Decimal
  import opened ProtocolState
  import opened NetworkManager

  type Rows = map<string, Guardian>

  lemma NamesAreInjective(a: string, b: string)
    ensures RowId(a) == RowId(b) ==> a == b
    ensures RowTee(a) == RowTee(b) ==> a == b
  {
    assert RowId(a)[|"agent-guardian-"|..] == a && RowId(b)[|"agent-guardian-"|..] == b;
    assert RowTee(a)[|"tee-"|..] == a && RowTee(b)[|"tee-"|..] == b;
  }

  // ----- the books -----

  predicate IsAgentActive(g: Guardian) {
    g.provisionedBy == Agent && g.status == Active
  }

  function LiveGuardianVms(c: Cloud): set<string> {
    set v | v in c.live && c.live[v] == GuardianVm
  }

  function AgentVms(rows: Rows): set<string> {
    set id | id in rows && IsAgentActive(rows[id]) && rows[id].vmId.Some? :: rows[id].vmId.value
  }

  predicate ShareTee(rows: Rows, a: string, b: string) {
    a in rows && b in rows && rows[a].tee == rows[b].tee
  }

  ghost predicate KeyedRows(rows: Rows) {
    (forall id <- rows :: rows[id].id == id) && forall a, b :: ShareTee(rows, a, b) ==> a == b
  }

  /** Agent rows are named after the VM they stand for. */
  ghost predicate Named(rows: Rows, c: Cloud) {
    forall id <- rows :: rows[id].provisionedBy == Agent ==>
      && rows[id].vmId.Some?
      && var vm := rows[id].vmId.value;
      vm != "" && vm in c.issued && id == RowId(vm) && rows[id].tee == RowTee(vm)
  }

  /** The guardian VM `v` is running exactly when its row is there and active. */
  predicate Matched(rows: Rows, c: Cloud, v: string) {
    (v in c.live && c.live[v] == GuardianVm)
    <==> (RowId(v) in rows && IsAgentActive(rows[RowId(v)]) && rows[RowId(v)].vmId == Some(v))
  }

  /** The backup VM on record is not a guardian's. */
  predicate BackupApart(c: Cloud, backupVm: Option<string>) {
    Truthy(backupVm) ==> backupVm.value in c.issued && (backupVm.value in c.live ==> c.live[backupVm.value] == BackupVm)
  }

  ghost predicate Books(rows: Rows, c: Cloud, backupVm: Option<string>) {
    && KeyedRows(rows) && Named(rows, c) && BackupApart(c, backupVm) && c.live.Keys <= c.issued
    && (forall v :: Matched(rows, c, v))
  }

  function BackupVmOf(t: Tables): Option<string> {
    GetConfig(t, AgentBackupVmId)
  }

  ghost predicate Accounted(f: Fleet) {
    Books(f.tables.guardians, f.cloud, BackupVmOf(f.tables))
  }

  /** Conservation: VMs created and not stopped are the VMs of the active agent-provisioned rows, no more and no fewer. */
  lemma AccountedMeansConserved(f: Fleet)
    requires Accounted(f)
    ensures LiveGuardianVms(f.cloud) == AgentVms(f.tables.guardians)
  {
    var rows := f.tables.guardians;
    forall v ensures v in LiveGuardianVms(f.cloud) <==> v in AgentVms(rows) {
      assert Matched(rows, f.cloud, v);
      if v in AgentVms(rows) {
        var id :| id in rows && IsAgentActive(rows[id]) && rows[id].vmId == Some(v);
      }
    }
  }

  function ActiveIds(rows: Rows): set<string> {
    set id | id in rows && rows[id].status == Active
  }

  function ActiveExternals(rows: Rows): set<string> {
    set id | id in rows && rows[id].status == Active && rows[id].provisionedBy == External
  }

  /** The active rows that the agent provisioned. */
  function OwnRows(rows: Rows): set<string> {
    set id | id in rows && IsAgentActive(rows[id])
  }

  lemma OwnRowsAreTheRest(rows: Rows)
    ensures |ActiveIds(rows)| == |OwnRows(rows)| + |ActiveExternals(rows)|
  {
    assert ActiveIds(rows) == OwnRows(rows) + ActiveExternals(rows) && OwnRows(rows) !! ActiveExternals(rows);
  }

  // ----- other writers -----

  /** The agent's rows are the same before and after. */
  ghost predicate OwnKept(rows: Rows, rows': Rows) {
    && (forall id <- rows :: rows[id].provisionedBy == Agent ==> id in rows' && rows'[id] == rows[id])
    && (forall id <- rows' :: rows'[id].provisionedBy == Agent ==> id in rows && rows'[id] == rows[id])
  }

  /** External nodes come and go freely; the agent's own rows and its backup VM on record stay as they are. */
  ghost predicate Stands(t: Tables, t': Tables) {
    KeyedRows(t'.guardians) && OwnKept(t.guardians, t'.guardians) && BackupVmOf(t') == BackupVmOf(t)
  }

  lemma StandingKeepsBooks(t: Tables, c: Cloud, t': Tables)
    requires Accounted(Fleet(t, c)) && Stands(t, t')
    ensures Accounted(Fleet(t', c)) && OwnRows(t'.guardians) == OwnRows(t.guardians)
  {
    forall v ensures Matched(t'.guardians, c, v) {
      assert Matched(t.guardians, c, v);
    }
  }

  // ----- loops -----

  /** What holds in front of every turn that a loop gets to. */
  ghost predicate Throughout(f: Fleet, turn: Turn, i: nat, n: nat, ok: (Fleet, nat) -> bool)
    decreases n - i
  {
    i < n ==>
      ok(f, i) && (turn(f, i).outcome.Returned? ==> Throughout(turn(f, i).fleet, turn, i + 1, n, ok))
  }

  /** A turn that returns makes `each` VMs and gets on; one that throws makes none and stays where it is. */
  ghost predicate Advances(turn: Turn, holds: (Fleet, nat) -> bool, f: Fleet, k: nat, each: nat) {
    var one := turn(f, k);
    if one.outcome.Returned? then one.made == one.recorded == each && holds(one.fleet, k + 1)
    else one.made == one.recorded == 0 && holds(one.fleet, k)
  }

  ghost predicate AllAdvance(turn: Turn, n: nat, ok: (Fleet, nat) -> bool, holds: (Fleet, nat) -> bool, each: nat) {
    forall g: Fleet, k: nat :: k < n && ok(g, k) && holds(g, k) ==> Advances(turn, holds, g, k, each)
  }

  /** Where a loop ends that is at turn `i` and whose turns all advance: after its last turn, or in one that throws. */
  lemma {:induction false} TurnsAdvanceFrom(f: Fleet, turn: Turn, i: nat, n: nat, ok: (Fleet, nat) -> bool,
                                            holds: (Fleet, nat) -> bool, each: nat)
    returns (last: Fleet, m: nat)
    requires i <= n && holds(f, i) && Throughout(f, turn, i, n, ok)
    requires AllAdvance(turn, n, ok, holds, each)
    ensures var ran := Turns(f, turn, i, n);
            && i <= m <= n && ran.made == ran.recorded == each * (m - i) && holds(ran.fleet, m)
            && (ran.outcome.Returned? <==> m == n)
            && (m < n ==> holds(last, m) && ok(last, m) && turn(last, m).outcome.Threw?)
    decreases n - i
  {
    last, m := f, i;
    if i < n {
      assert Advances(turn, holds, f, i, each);
      var one := turn(f, i);
      if one.outcome.Returned? {
        last, m := TurnsAdvanceFrom(one.fleet, turn, i + 1, n, ok, holds, each);
        assert each + each * (m - (i + 1)) == each * (m - i);
      }
    }
  }

  // ----- the four entries -----

  lemma EnterGuardianVm(t: Tables, c: Cloud, vm: Vm, now: int)
    requires Accounted(Fleet(t, c)) && vm.id != "" && vm.id !in c.issued && !GuardianClash(t, AgentRow(vm, now))
    ensures var t' := UpsertGuardian(t, AgentRow(vm, now)).value;
            && Books(t'.guardians, Created(c, vm, GuardianVm), BackupVmOf(t))
            && RowId(vm.id) !in OwnRows(t.guardians) && OwnRows(t'.guardians) == OwnRows(t.guardians) + {RowId(vm.id)}
  {
    var rows, id := t.guardians, RowId(vm.id);
    var rows' := UpsertGuardian(t, AgentRow(vm, now)).value.guardians;
    if id in rows && rows[id].provisionedBy == Agent { NamesAreInjective(rows[id].vmId.value, vm.id); }
    forall a, b | ShareTee(rows', a, b) ensures a == b {
      assert ShareTee(rows, a, b) || id in {a, b};
    }
    forall v ensures Matched(rows', Created(c, vm, GuardianVm), v) {
      assert Matched(rows, c, v);
      NamesAreInjective(v, vm.id);
    }
  }

  /** A registered row's own update never clashes. */
  lemma NoClashOnUpdate(t: Tables, g: Guardian)
    requires KeyedRows(t.guardians) && g.id in t.guardians && t.guardians[g.id] == g
    ensures !GuardianClash(t, g.(status := Inactive))
  {
    forall id <- t.guardians | t.guardians[id].tee == g.tee ensures id == g.id {
      assert ShareTee(t.guardians, id, g.id);
    }
  }

  lemma RetireGuardianVm(rows: Rows, c: Cloud, backupVm: Option<string>, g: Guardian)
    requires Books(rows, c, backupVm) && g.id in rows && rows[g.id] == g && IsAgentActive(g)
    ensures Truthy(g.vmId)
    ensures Books(rows[g.id := g.(status := Inactive)], Stopped(c, g.vmId.value), backupVm)
    ensures OwnRows(rows[g.id := g.(status := Inactive)]) == OwnRows(rows) - {g.id}
  {
    var rows' := rows[g.id := g.(status := Inactive)];
    var c' := Stopped(c, g.vmId.value);
    forall a, b | ShareTee(rows', a, b) ensures a == b {
      assert ShareTee(rows, a, b);
    }
    forall v ensures Matched(rows', c', v) {
      assert Matched(rows, c, v);
      NamesAreInjective(v, g.vmId.value);
    }
  }

  lemma EnterBackupVm(rows: Rows, c: Cloud, backupVm: Option<string>, vm: Vm)
    requires Books(rows, c, backupVm) && vm.id != "" && vm.id !in c.issued
    ensures Books(rows, Created(c, vm, BackupVm), Some(vm.id))
  {
    forall v ensures Matched(rows, Created(c, vm, BackupVm), v) {
      assert Matched(rows, c, v);
    }
  }

  lemma RetireBackupVm(rows: Rows, c: Cloud, backupVm: Option<string>)
    requires Books(rows, c, backupVm) && Truthy(backupVm)
    ensures Books(rows, Stopped(c, backupVm.value), Some(""))
  {
    forall v ensures Matched(rows, Stopped(c, backupVm.value), v) {
      assert Matched(rows, c, v);
    }
  }

  // ----- provisioning guardians -----

  lemma UnregisteredVmLeaks(t: Tables, c: Cloud, vm: Vm)
    requires Accounted(Fleet(t, c)) && vm.id !in c.issued
    ensures !Matched(t.guardians, Created(c, vm, GuardianVm), vm.id)
  {
    assert Matched(t.guardians, c, vm.id);
  }

  /**
    When creating a VM under a fresh id leaves the books balanced: exactly when no other row holds, once the VM
    is there, the TEE id derived from it. Otherwise the INSERT throws, and nothing records the VM.
   */
  lemma CreationLeaksExactly(f: Fleet, vm: Vm, others: Others, now: int)
    requires Accounted(f) && Truthy(GetConfig(f.tables, GuardianCompose)) && Stands(f.tables, others(f.tables))
    requires vm.id != "" && vm.id !in f.cloud.issued
    ensures Accounted(ProvisionGuardian(f, Some(vm), others, now).fleet) <==> !GuardianClash(others(f.tables), AgentRow(vm, now))
  {
    StandingKeepsBooks(f.tables, f.cloud, others(f.tables));
    if GuardianClash(others(f.tables), AgentRow(vm, now)) {
      UnregisteredVmLeaks(others(f.tables), f.cloud, vm);
    } else {
      EnterGuardianVm(others(f.tables), f.cloud, vm, now);
    }
  }

  /** A new id, whose derived TEE id no other row holds when its own row is written; and nobody else writes the agent's rows. */
  ghost predicate Unclashing(f: Fleet, answer: Option<Vm>, others: Others, now: int) {
    Truthy(GetConfig(f.tables, GuardianCompose)) ==>
      && Stands(f.tables, others(f.tables))
      && (answer.Some? ==>
            && answer.value.id != "" && answer.value.id !in f.cloud.issued
            && !GuardianClash(others(f.tables), AgentRow(answer.value, now)))
  }

  ghost function UnclashingCalls(w: Weather): (Fleet, nat) -> bool {
    (f: Fleet, i: nat) => Unclashing(f, w.creates(i), w.whileCreating(i), w.clock)
  }

  /** Every call of the provisioning loop meets such an id. */
  ghost predicate Clashless(f: Fleet, w: Weather, needed: nat) {
    Throughout(f, Provisioning(w), 0, needed, UnclashingCalls(w))
  }

  predicate AllAnswered(creates: nat -> Option<Vm>, m: nat) {
    forall k :: 0 <= k < m ==> creates(k).Some?
  }

  /** The VMs that the first `m` answers name. */
  function Answered(creates: nat -> Option<Vm>, m: nat): set<string>
    requires AllAnswered(creates, m)
  {
    if m == 0 then {} else Answered(creates, m - 1) + {creates(m - 1).value.id}
  }

  function RowIds(vms: set<string>): set<string> {
    set v <- vms :: RowId(v)
  }

  lemma OneCreation(f: Fleet, vm: Vm, others: Others, now: int)
    requires Accounted(f) && Unclashing(f, Some(vm), others, now) && Truthy(GetConfig(f.tables, GuardianCompose))
    ensures var one := ProvisionGuardian(f, Some(vm), others, now);
            && one.outcome.Returned? && one.made == one.recorded == 1 && Accounted(one.fleet)
            && OwnRows(one.fleet.tables.guardians) == OwnRows(f.tables.guardians) + {RowId(vm.id)}
            && RowId(vm.id) !in OwnRows(f.tables.guardians)
            && LiveGuardianVms(one.fleet.cloud) == LiveGuardianVms(f.cloud) + {vm.id}
  {
    StandingKeepsBooks(f.tables, f.cloud, others(f.tables));
    EnterGuardianVm(others(f.tables), f.cloud, vm, now);
  }

  lemma NoCreation(f: Fleet, answer: Option<Vm>, others: Others, now: int)
    requires Accounted(f) && Unclashing(f, answer, others, now)
    requires !Truthy(GetConfig(f.tables, GuardianCompose)) || answer.None?
    ensures var one := ProvisionGuardian(f, answer, others, now);
            && one.outcome.Threw? && one.made == one.recorded == 0 && Accounted(one.fleet)
            && OwnRows(one.fleet.tables.guardians) == OwnRows(f.tables.guardians)
            && LiveGuardianVms(one.fleet.cloud) == LiveGuardianVms(f.cloud)
  {
    if Truthy(GetConfig(f.tables, GuardianCompose)) { StandingKeepsBooks(f.tables, f.cloud, others(f.tables)); }
  }

  /** The loop at call `k`, with `k` more rows of the agent's own than the `own` it began with. */
  ghost function Growing(own: nat): (Fleet, nat) -> bool {
    (g: Fleet, k: nat) => Accounted(g) && |OwnRows(g.tables.guardians)| == own + k
  }

  lemma NextGrows(own: nat, w: Weather, g: Fleet, k: nat)
    requires Growing(own)(g, k) && UnclashingCalls(w)(g, k)
    ensures Advances(Provisioning(w), Growing(own), g, k, 1)
  {
    if Truthy(GetConfig(g.tables, GuardianCompose)) && w.creates(k).Some? {
      OneCreation(g, w.creates(k).value, w.whileCreating(k), w.clock);
    } else {
      NoCreation(g, w.creates(k), w.whileCreating(k), w.clock);
    }
  }

  /** The loop at call `k`, with every call before it answered, and every VM created entered. */
  ghost function Entering(own: set<string>, live: set<string>, w: Weather): (Fleet, nat) -> bool {
    (g: Fleet, k: nat) =>
      && Accounted(g) && AllAnswered(w.creates, k)
      && OwnRows(g.tables.guardians) == own + RowIds(Answered(w.creates, k))
      && LiveGuardianVms(g.cloud) == live + Answered(w.creates, k)
  }

  lemma OneMoreAnswered(creates: nat -> Option<Vm>, k: nat)
    requires AllAnswered(creates, k) && creates(k).Some?
    ensures AllAnswered(creates, k + 1) && Answered(creates, k + 1) == Answered(creates, k) + {creates(k).value.id}
    ensures RowIds(Answered(creates, k + 1)) == RowIds(Answered(creates, k)) + {RowId(creates(k).value.id)}
  {
  }

  lemma NextEnters(own: set<string>, live: set<string>, w: Weather, g: Fleet, k: nat)
    requires Entering(own, live, w)(g, k) && UnclashingCalls(w)(g, k)
    requires Truthy(GetConfig(g.tables, GuardianCompose)) && w.creates(k).Some?
    ensures Advances(Provisioning(w), Entering(own, live, w), g, k, 1)
  {
    OneCreation(g, w.creates(k).value, w.whileCreating(k), w.clock);
    OneMoreAnswered(w.creates, k);
  }

  lemma EntriesAdvance(own: set<string>, live: set<string>, w: Weather, needed: nat)
    ensures AllAdvance(Provisioning(w), needed, UnclashingCalls(w), Entering(own, live, w), 1)
  {
    forall g, k: nat | UnclashingCalls(w)(g, k) && Entering(own, live, w)(g, k)
      ensures Advances(Provisioning(w), Entering(own, live, w), g, k, 1)
    {
      if Truthy(GetConfig(g.tables, GuardianCompose)) && w.creates(k).Some? {
        NextEnters(own, live, w, g, k);
      } else {
        NoCreation(g, w.creates(k), w.whileCreating(k), w.clock);
      }
    }
  }

  lemma EntriesStart(f: Fleet, w: Weather)
    requires Accounted(f)
    ensures Entering(OwnRows(f.tables.guardians), LiveGuardianVms(f.cloud), w)(f, 0)
  {
    assert RowIds(Answered(w.creates, 0)) == {};
  }

  lemma ProvisioningGrows(f: Fleet, w: Weather, needed: nat)
    requires Accounted(f) && Clashless(f, w, needed)
    ensures var ran := Turns(f, Provisioning(w), 0, needed);
            && ran.recorded == ran.made <= needed && Accounted(ran.fleet)
            && |OwnRows(ran.fleet.tables.guardians)| == |OwnRows(f.tables.guardians)| + ran.made
            && (ran.outcome.Returned? <==> ran.made == needed)
  {
    var own := |OwnRows(f.tables.guardians)|;
    forall g, k: nat | UnclashingCalls(w)(g, k) && Growing(own)(g, k) ensures Advances(Provisioning(w), Growing(own), g, k, 1) {
      NextGrows(own, w, g, k);
    }
    var last, m := TurnsAdvanceFrom(f, Provisioning(w), 0, needed, UnclashingCalls(w), Growing(own), 1);
  }

  /**
    Provisioning, wherever it stops, has created the VMs it was given up to there and entered a row for each
    of them; when it completes, all that were needed.
   */
  lemma ProvisioningIsEntries(f: Fleet, w: Weather, needed: nat)
    requires Accounted(f) && Clashless(f, w, needed)
    ensures var ran := Turns(f, Provisioning(w), 0, needed);
            && ran.recorded == ran.made <= needed && AllAnswered(w.creates, ran.made) && Accounted(ran.fleet)
            && OwnRows(ran.fleet.tables.guardians) == OwnRows(f.tables.guardians) + RowIds(Answered(w.creates, ran.made))
            && LiveGuardianVms(ran.fleet.cloud) == LiveGuardianVms(f.cloud) + Answered(w.creates, ran.made)
            && (ran.outcome.Returned? <==> ran.made == needed)
  {
    var own, live := OwnRows(f.tables.guardians), LiveGuardianVms(f.cloud);
    EntriesAdvance(own, live, w, needed);
    EntriesStart(f, w);
    var last, m := TurnsAdvanceFrom(f, Provisioning(w), 0, needed, UnclashingCalls(w), Entering(own, live, w), 1);
  }

  // ----- removing guardians -----

  ghost predicate Distinct(list: seq<Guardian>) {
    forall i, j :: 0 <= i < j < |list| ==> list[i].id != list[j].id
  }

  /** The rows still to be removed stand in the table as they were read. */
  ghost predicate StillThere(rows: Rows, gs: seq<Guardian>, i: nat) {
    && Distinct(gs)
    && (forall k :: i <= k < |gs| ==> gs[k].id in rows && rows[gs[k].id] == gs[k] && IsAgentActive(gs[k]))
  }

  lemma OneRemoval(f: Fleet, g: Guardian, works: bool, others: Others)
    requires Accounted(f) && Stands(f.tables, others(f.tables))
    requires g.id in f.tables.guardians && f.tables.guardians[g.id] == g && IsAgentActive(g)
    ensures var one := DeprovisionGuardian(f, g, works, others);
            && one.made == one.recorded == 0 && (one.outcome.Returned? <==> works) && Accounted(one.fleet)
            && (works ==> one.fleet.tables.guardians == others(f.tables).guardians[g.id := g.(status := Inactive)])
            && (!works ==> one.fleet.tables.guardians == others(f.tables).guardians)
            && OwnRows(one.fleet.tables.guardians) == OwnRows(f.tables.guardians) - (if works then {g.id} else {})
  {
    StandingKeepsBooks(f.tables, f.cloud, others(f.tables));
    RetireGuardianVm(others(f.tables).guardians, f.cloud, BackupVmOf(others(f.tables)), g);
    NoClashOnUpdate(others(f.tables), g);
  }

  /** The ids of the first `m` rows. */
  function IdsOf(gs: seq<Guardian>, m: nat): set<string>
    requires m <= |gs|
  {
    if m == 0 then {} else IdsOf(gs, m - 1) + {gs[m - 1].id}
  }

  /** Nobody else writes the agent's rows while the removal loop waits. */
  ghost function StandingWaits(w: Weather): (Fleet, nat) -> bool {
    (f: Fleet, i: nat) => Stands(f.tables, w.whileStopping(i)(f.tables))
  }

  ghost predicate Unhindered(f: Fleet, gs: seq<Guardian>, w: Weather, n: nat) {
    Throughout(f, Removing(gs, w), 0, n, StandingWaits(w))
  }

  lemma OthersAreStillThere(rows: Rows, rows': Rows, gs: seq<Guardian>, i: nat)
    requires i < |gs| && StillThere(rows, gs, i) && OwnKept(rows, rows')
    ensures StillThere(rows'[gs[i].id := gs[i].(status := Inactive)], gs, i + 1)
  {
  }

  lemma NextRemoval(g: Fleet, gs: seq<Guardian>, k: nat, works: bool, others: Others)
    requires k < |gs| && Accounted(g) && StillThere(g.tables.guardians, gs, k) && Stands(g.tables, others(g.tables))
    ensures var one := DeprovisionGuardian(g, gs[k], works, others);
            && one.made == one.recorded == 0 && (one.outcome.Returned? <==> works) && Accounted(one.fleet)
            && StillThere(one.fleet.tables.guardians, gs, if works then k + 1 else k)
            && gs[k].id in OwnRows(g.tables.guardians)
            && OwnRows(one.fleet.tables.guardians) == OwnRows(g.tables.guardians) - (if works then {gs[k].id} else {})
  {
    OneRemoval(g, gs[k], works, others);
    OthersAreStillThere(g.tables.guardians, others(g.tables).guardians, gs, k);
  }

  /** The loop at row `k`, with every row before it retired from the agent's `own`. */
  ghost function Retiring(own: set<string>, gs: seq<Guardian>, w: Weather): (Fleet, nat) -> bool {
    (g: Fleet, k: nat) =>
      && k <= |gs| && Accounted(g) && StillThere(g.tables.guardians, gs, k)
      && OwnRows(g.tables.guardians) == own - IdsOf(gs, k) && forall j :: 0 <= j < k ==> w.stops(j)
  }

  lemma NextRetires(own: set<string>, gs: seq<Guardian>, w: Weather, g: Fleet, k: nat)
    requires k < |gs| && StandingWaits(w)(g, k) && Retiring(own, gs, w)(g, k)
    ensures Advances(Removing(gs, w), Retiring(own, gs, w), g, k, 0)
    ensures Removing(gs, w)(g, k).outcome.Returned? <==> w.stops(k)
  {
    NextRemoval(g, gs, k, w.stops(k), w.whileStopping(k));
    assert w.stops(k) ==> own - IdsOf(gs, k) - {gs[k].id} == own - IdsOf(gs, k + 1);
    assert own - IdsOf(gs, k) - {} == own - IdsOf(gs, k);
  }

  /** The loop at row `k`, with `k` rows fewer of the agent's own than the `own` it began with. */
  ghost function Shrinking(own: int, gs: seq<Guardian>): (Fleet, nat) -> bool {
    (g: Fleet, k: nat) =>
      && k <= |gs| && Accounted(g) && StillThere(g.tables.guardians, gs, k) && |OwnRows(g.tables.guardians)| == own - k
  }

  lemma NextShrinks(own: int, gs: seq<Guardian>, w: Weather, g: Fleet, k: nat)
    requires k < |gs| && StandingWaits(w)(g, k) && Shrinking(own, gs)(g, k)
    ensures Advances(Removing(gs, w), Shrinking(own, gs), g, k, 0)
  {
    NextRemoval(g, gs, k, w.stops(k), w.whileStopping(k));
  }

  lemma RemovalShrinks(f: Fleet, gs: seq<Guardian>, w: Weather, n: nat) returns (m: nat)
    requires n <= |gs| && Accounted(f) && StillThere(f.tables.guardians, gs, 0) && Unhindered(f, gs, w, n)
    ensures var ran := Turns(f, Removing(gs, w), 0, n);
            && m <= n && ran.made == ran.recorded == 0 && Accounted(ran.fleet)
            && |OwnRows(ran.fleet.tables.guardians)| == |OwnRows(f.tables.guardians)| - m
            && (ran.outcome.Returned? <==> m == n)
  {
    var own := |OwnRows(f.tables.guardians)|;
    forall g, k: nat | k < n && StandingWaits(w)(g, k) && Shrinking(own, gs)(g, k)
      ensures Advances(Removing(gs, w), Shrinking(own, gs), g, k, 0)
    {
      NextShrinks(own, gs, w, g, k);
    }
    var last;
    last, m := TurnsAdvanceFrom(f, Removing(gs, w), 0, n, StandingWaits(w), Shrinking(own, gs), 0);
  }

  /**
    Removal, wherever it stops, has retired the rows up to the first whose VM could not be stopped; when it
    completes, all that were due.
   */
  lemma RemovalIsRetirements(f: Fleet, gs: seq<Guardian>, w: Weather, n: nat) returns (m: nat)
    requires n <= |gs| && Accounted(f) && StillThere(f.tables.guardians, gs, 0) && Unhindered(f, gs, w, n)
    ensures var ran := Turns(f, Removing(gs, w), 0, n);
            && m <= n && ran.made == ran.recorded == 0 && Accounted(ran.fleet)
            && OwnRows(ran.fleet.tables.guardians) == OwnRows(f.tables.guardians) - IdsOf(gs, m)
            && (if ran.outcome.Returned? then m == n else m < n && !w.stops(m))
            && (forall k :: 0 <= k < m ==> w.stops(k))
  {
    var own := OwnRows(f.tables.guardians);
    forall g, k: nat | k < n && StandingWaits(w)(g, k) && Retiring(own, gs, w)(g, k)
      ensures Advances(Removing(gs, w), Retiring(own, gs, w), g, k, 0)
    {
      NextRetires(own, gs, w, g, k);
    }
    var last;
    last, m := TurnsAdvanceFrom(f, Removing(gs, w), 0, n, StandingWaits(w), Retiring(own, gs, w), 0);
    if m < n { NextRetires(own, gs, w, last, m); }
  }

  // ----- counting what a SELECT returned -----

  /** `list` holds one row per id of `ids`. */
  ghost predicate Enumerates(list: seq<Guardian>, ids: set<string>) {
    Distinct(list) && (forall g <- list :: g.id in ids) && (forall id <- ids :: exists g :: g in list && g.id == id)
  }

  lemma {:induction false} ListIsAsLongAsItsIds(list: seq<Guardian>, ids: set<string>)
    requires Enumerates(list, ids)
    ensures |list| == |ids|
  {
    if list == [] {
      assert ids == {};
    } else {
      var tail, left := list[1..], ids - {list[0].id};
      assert list[0] in list;
      forall g <- tail ensures g.id in left {
        var k :| 0 <= k < |tail| && tail[k] == g;
        assert list[k + 1] == g;
      }
      forall id <- left ensures exists g :: g in tail && g.id == id {
        var g :| g in list && g.id == id;
        var k :| 0 <= k < |list| && list[k] == g;
        assert tail[k - 1] == g;
      }
      ListIsAsLongAsItsIds(tail, left);
    }
  }

  lemma {:induction false} FiltersKeepRows(rows: seq<Guardian>)
    requires Distinct(rows)
    ensures Distinct(ActiveRows(rows)) && Distinct(AgentRows(rows))
    ensures forall g :: g in ActiveRows(rows) <==> g in rows && g.status == Active
    ensures forall g :: g in AgentRows(rows) <==> g in rows && IsAgentActive(g)
  {
    if rows != [] {
      FiltersKeepRows(rows[1..]);
      forall g | g in rows[1..] ensures g.id != rows[0].id {
        var k :| 0 <= k < |rows[1..]| && rows[1..][k] == g;
        assert rows[k + 1] == g;
      }
    }
  }

  /** The counts that the evaluation takes from its SELECT. */
  lemma ActiveCountIsCardinality(rows: seq<Guardian>, t: Tables)
    requires KeyedRows(t.guardians) && GuardianListing(rows, t, None)
    ensures |ActiveRows(rows)| == |ActiveIds(t.guardians)|
  {
    FiltersKeepRows(rows);
    forall id <- ActiveIds(t.guardians) ensures exists g :: g in ActiveRows(rows) && g.id == id {
      assert t.guardians[id] in ActiveRows(rows);
    }
    ListIsAsLongAsItsIds(ActiveRows(rows), ActiveIds(t.guardians));
  }

  lemma AgentCountIsCardinality(rows: seq<Guardian>, t: Tables)
    requires KeyedRows(t.guardians) && GuardianListing(rows, t, None)
    ensures |AgentRows(rows)| == |OwnRows(t.guardians)|
  {
    FiltersKeepRows(rows);
    forall id <- OwnRows(t.guardians) ensures exists g :: g in AgentRows(rows) && g.id == id {
      assert t.guardians[id] in AgentRows(rows);
    }
    ListIsAsLongAsItsIds(AgentRows(rows), OwnRows(t.guardians));
  }

  // ----- the guardian section -----

  /** The two timers of a section, as stored. */
  datatype Timers = Timers(deficit: Option<string>, pending: Option<string>)

  function GuardianTimers(t: Tables): Timers {
    Timers(GetConfig(t, GuardianDeficitSince), GetConfig(t, GuardianProvisioningPending))
  }

  function BackupTimers(t: Tables): Timers {
    Timers(GetConfig(t, BackupDeficitSince), GetConfig(t, BackupProvisioningPending))
  }

  /** A section in deficit provisions: nothing is pending, and the deficit is ten minutes old. */
  predicate Due(t: Timers, now: int) {
    && !Truthy(t.pending) && Truthy(t.deficit)
    && var since := Decimal.ParseInt(t.deficit.value);
    since.Some? && now - since.value >= 600_000
  }

  /** What the guardian section meets, in whichever loop it enters. */
  ghost predicate SectionOrderly(f: Fleet, rows: seq<Guardian>, target: nat, w: Weather) {
    if |ActiveRows(rows)| < target then
      Due(GuardianTimers(f.tables), w.clock) ==> Clashless(f, w, target - |ActiveRows(rows)|)
    else Unhindered(Calm(f), AgentRows(rows), w, Removals(rows, target))
  }

  /** In deficit, nothing but a due timer makes the section touch rows or cloud. */
  lemma DeficitBranch(f: Fleet, missing: nat, w: Weather)
    ensures var ran := MakeUp(f, missing, w);
            if Due(GuardianTimers(f.tables), w.clock) then
              var all := Turns(f, Provisioning(w), 0, missing);
              && ran.outcome == all.outcome && ran.made == all.made && ran.recorded == all.recorded
              && ran.fleet.cloud == all.fleet.cloud && ran.fleet.tables.guardians == all.fleet.tables.guardians
              && BackupVmOf(ran.fleet.tables) == BackupVmOf(all.fleet.tables)
            else
              && ran.outcome.Returned? && ran.made == ran.recorded == 0
              && ran.fleet.cloud == f.cloud && ran.fleet.tables.guardians == f.tables.guardians
              && BackupVmOf(ran.fleet.tables) == BackupVmOf(f.tables)
  {
  }

  lemma AgentRowsAreStillThere(f: Fleet, rows: seq<Guardian>)
    requires GuardianListing(rows, f.tables, None)
    ensures StillThere(f.tables.guardians, AgentRows(rows), 0)
  {
    FiltersKeepRows(rows);
    var agents := AgentRows(rows);
    forall k | 0 <= k < |agents|
      ensures agents[k].id in f.tables.guardians && f.tables.guardians[agents[k].id] == agents[k] && IsAgentActive(agents[k])
    {
      assert agents[k] in agents;
    }
  }

  function Max(a: int, b: int): int {
    if a >= b then a else b
  }

  /** How a section that read `before` active rows changes the number `own` of the agent's own ones. */
  predicate Adjusts(own: nat, before: nat, target: nat, ran: Ran, own': nat) {
    && ran.recorded == ran.made
    && (before < target ==>
          && own' == own + ran.made && ran.made <= target - before
          && (ran.outcome.Returned? && ran.made > 0 ==> ran.made == target - before))
    && (before >= target ==>
          && ran.made == 0 && Max(own - (before - target), 0) <= own' <= own
          && (ran.outcome.Returned? ==> own' == Max(own - (before - target), 0)))
  }

  lemma DeficitAdjusts(f: Fleet, before: nat, target: nat, w: Weather)
    requires Accounted(f) && before < target
    requires Due(GuardianTimers(f.tables), w.clock) ==> Clashless(f, w, target - before)
    ensures var ran := MakeUp(f, target - before, w);
            && Accounted(ran.fleet)
            && Adjusts(|OwnRows(f.tables.guardians)|, before, target, ran, |OwnRows(ran.fleet.tables.guardians)|)
  {
    DeficitBranch(f, target - before, w);
    if Due(GuardianTimers(f.tables), w.clock) { ProvisioningGrows(f, w, target - before); }
  }

  lemma SurplusAdjusts(f: Fleet, rows: seq<Guardian>, target: nat, w: Weather)
    requires Accounted(f) && GuardianListing(rows, f.tables, None)
    requires |ActiveRows(rows)| >= target && SectionOrderly(f, rows, target, w)
    ensures var ran := ManageGuardians(f, rows, target, w);
            && Accounted(ran.fleet)
            && Adjusts(|OwnRows(f.tables.guardians)|, |ActiveRows(rows)|, target, ran, |OwnRows(ran.fleet.tables.guardians)|)
  {
    AgentCountIsCardinality(rows, f.tables);
    AgentRowsAreStillThere(f, rows);
    var m := RemovalShrinks(Calm(f), AgentRows(rows), w, Removals(rows, target));
  }

  lemma SectionAdjusts(f: Fleet, rows: seq<Guardian>, target: nat, w: Weather)
    requires Accounted(f) && GuardianListing(rows, f.tables, None) && SectionOrderly(f, rows, target, w)
    ensures var ran := ManageGuardians(f, rows, target, w);
            && Accounted(ran.fleet)
            && Adjusts(|OwnRows(f.tables.guardians)|, |ActiveRows(rows)|, target, ran, |OwnRows(ran.fleet.tables.guardians)|)
  {
    if |ActiveRows(rows)| < target {
      DeficitAdjusts(f, |ActiveRows(rows)|, target, w);
    } else {
      SurplusAdjusts(f, rows, target, w);
    }
  }

  /**
    Conservation in the guardian section, whatever fails in it and whatever external nodes do meanwhile: the
    books balance, and the agent's own rows change by what was missing or superfluous, or part of it.
   */
  lemma SectionKeepsBooks(f: Fleet, rows: seq<Guardian>, target: nat, w: Weather)
    requires Accounted(f) && GuardianListing(rows, f.tables, None) && SectionOrderly(f, rows, target, w)
    ensures var ran := ManageGuardians(f, rows, target, w);
            && Accounted(ran.fleet)
            && Adjusts(|OwnRows(f.tables.guardians)|, |ActiveIds(f.tables.guardians)|, target, ran,
                       |OwnRows(ran.fleet.tables.guardians)|)
  {
    ActiveCountIsCardinality(rows, f.tables);
    SectionAdjusts(f, rows, target, w);
  }

  // ----- with nobody else writing the node table -----

  /** External rows are the same before and after. */
  ghost predicate ExternalsKept(rows: Rows, rows': Rows) {
    && (forall id <- rows :: rows[id].provisionedBy == External ==> id in rows' && rows'[id] == rows[id])
    && (forall id <- rows' :: rows'[id].provisionedBy == External ==> id in rows && rows'[id] == rows[id])
  }

  ghost predicate LeavesNodes(others: Others) {
    forall t :: others(t).guardians == t.guardians && GetConfig(others(t), GuardianCompose) == GetConfig(t, GuardianCompose)
  }

  predicate NamesRow(answer: Option<Vm>, id: string) {
    answer.Some? && RowId(answer.value.id) == id
  }

  /** No other writer touches the nodes or the compose file, and no external node goes by a new VM's row id. */
  ghost predicate Quiet(rows: Rows, w: Weather) {
    && (forall i :: LeavesNodes(w.whileCreating(i))) && (forall i :: LeavesNodes(w.whileStopping(i)))
    && (forall id <- rows, k :: NamesRow(w.creates(k), id) ==> rows[id].provisionedBy == Agent)
  }

  lemma CreationKeepsExternals(f: Fleet, w: Weather, i: nat)
    requires Quiet(f.tables.guardians, w)
    ensures var one := Provisioning(w)(f, i).fleet.tables;
            && ExternalsKept(f.tables.guardians, one.guardians) && Quiet(one.guardians, w)
            && GetConfig(one, GuardianCompose) == GetConfig(f.tables, GuardianCompose)
  {
    assert LeavesNodes(w.whileCreating(i));
    if w.creates(i).Some? { assert NamesRow(w.creates(i), RowId(w.creates(i).value.id)); }
  }

  lemma ExternalsCompose(a: Rows, b: Rows, c: Rows)
    requires ExternalsKept(a, b) && ExternalsKept(b, c)
    ensures ExternalsKept(a, c)
  {
  }

  lemma NextKeepsExternals(rows: Rows, g: Fleet, w: Weather, k: nat)
    requires Quiet(g.tables.guardians, w) && ExternalsKept(rows, g.tables.guardians)
    ensures var one := Provisioning(w)(g, k).fleet.tables.guardians; Quiet(one, w) && ExternalsKept(rows, one)
  {
    CreationKeepsExternals(g, w, k);
    ExternalsCompose(rows, g.tables.guardians, Provisioning(w)(g, k).fleet.tables.guardians);
  }

  lemma ProvisioningKeepsExternals(f: Fleet, w: Weather, needed: nat)
    requires Quiet(f.tables.guardians, w)
    ensures ExternalsKept(f.tables.guardians, Turns(f, Provisioning(w), 0, needed).fleet.tables.guardians)
  {
    var inv := (g: Fleet) => Quiet(g.tables.guardians, w) && ExternalsKept(f.tables.guardians, g.tables.guardians);
    forall g, k: nat | inv(g) ensures inv(Provisioning(w)(g, k).fleet) {
      NextKeepsExternals(f.tables.guardians, g, w, k);
    }
    TurnsKeep(f, Provisioning(w), 0, needed, inv);
  }

  lemma RetirementKeepsExternals(f: Fleet, f1: Fleet, g: Guardian, works: bool, others: Others)
    requires ExternalsKept(f.tables.guardians, f1.tables.guardians) && LeavesNodes(others)
    requires g.id in f.tables.guardians && f.tables.guardians[g.id] == g && g.provisionedBy == Agent
    ensures ExternalsKept(f.tables.guardians, DeprovisionGuardian(f1, g, works, others).fleet.tables.guardians)
  {
  }

  lemma RemovalKeepsExternals(f: Fleet, gs: seq<Guardian>, w: Weather, n: nat)
    requires n <= |gs| && Quiet(f.tables.guardians, w) && StillThere(f.tables.guardians, gs, 0)
    ensures ExternalsKept(f.tables.guardians, Turns(f, Removing(gs, w), 0, n).fleet.tables.guardians)
  {
    var inv := (g: Fleet) => ExternalsKept(f.tables.guardians, g.tables.guardians);
    forall g, k: nat | inv(g) ensures inv(Removing(gs, w)(g, k).fleet) {
      if k < |gs| { RetirementKeepsExternals(f, g, gs[k], w.stops(k), w.whileStopping(k)); }
    }
    TurnsKeep(f, Removing(gs, w), 0, n, inv);
  }

  lemma DeficitKeepsExternals(f: Fleet, missing: nat, w: Weather)
    requires Quiet(f.tables.guardians, w)
    ensures ExternalsKept(f.tables.guardians, MakeUp(f, missing, w).fleet.tables.guardians)
  {
    DeficitBranch(f, missing, w);
    ProvisioningKeepsExternals(f, w, missing);
  }

  lemma SurplusKeepsExternals(f: Fleet, rows: seq<Guardian>, n: nat, w: Weather)
    requires n <= |AgentRows(rows)| && GuardianListing(rows, f.tables, None) && Quiet(f.tables.guardians, w)
    ensures ExternalsKept(f.tables.guardians, Turns(Calm(f), Removing(AgentRows(rows), w), 0, n).fleet.tables.guardians)
  {
    AgentRowsAreStillThere(f, rows);
    RemovalKeepsExternals(Calm(f), AgentRows(rows), w, n);
  }

  lemma SectionKeepsExternals(f: Fleet, rows: seq<Guardian>, target: nat, w: Weather)
    requires GuardianListing(rows, f.tables, None) && Quiet(f.tables.guardians, w)
    ensures ExternalsKept(f.tables.guardians, ManageGuardians(f, rows, target, w).fleet.tables.guardians)
  {
    if |ActiveRows(rows)| < target {
      DeficitKeepsExternals(f, target - |ActiveRows(rows)|, w);
    } else {
      SurplusKeepsExternals(f, rows, Removals(rows, target), w);
    }
  }

  /** What the guardian section guarantees when nobody else writes the node table. */
  ghost predicate Converges(rows: Rows, ran: Ran, target: nat) {
    var rows' := ran.fleet.tables.guardians;
    var before, after := |ActiveIds(rows)|, |ActiveIds(rows')|;
    && ExternalsKept(rows, rows')
    && (before < target ==> before <= after <= target && after == before + ran.made)
    && (before >= target ==> target <= after <= before && ran.made == 0)
    && (ran.outcome.Returned? && ran.made > 0 ==> after == target)
    && (ran.outcome.Returned? && before >= target ==> after == Max(target, |ActiveExternals(rows)|))
  }

  lemma AdjustingConverges(rows: Rows, ran: Ran, target: nat)
    requires ExternalsKept(rows, ran.fleet.tables.guardians)
    requires Adjusts(|OwnRows(rows)|, |ActiveIds(rows)|, target, ran, |OwnRows(ran.fleet.tables.guardians)|)
    ensures Converges(rows, ran, target)
  {
    OwnRowsAreTheRest(rows);
    OwnRowsAreTheRest(ran.fleet.tables.guardians);
    assert ActiveExternals(ran.fleet.tables.guardians) == ActiveExternals(rows);
  }

  /**
    Convergence of the guardian section, whatever fails in it. The books balance, no external row changes, and
    the number of active guardians ends between where it was and the target. When it completes, provisioning
    ends at the target exactly, and removal at the target or at the external guardians, whichever is more.
   */
  lemma GuardianSectionConverges(f: Fleet, rows: seq<Guardian>, target: nat, w: Weather)
    requires Accounted(f) && GuardianListing(rows, f.tables, None) && SectionOrderly(f, rows, target, w)
    requires Quiet(f.tables.guardians, w)
    ensures var ran := ManageGuardians(f, rows, target, w);
            Accounted(ran.fleet) && Converges(f.tables.guardians, ran, target)
  {
    SectionKeepsBooks(f, rows, target, w);
    SectionKeepsExternals(f, rows, target, w);
    AdjustingConverges(f.tables.guardians, ManageGuardians(f, rows, target, w), target);
  }

  // ----- when a deficit is made up -----

  /** The loop at call `k`, with every call before it answered and the compose file as it was. */
  ghost function Composed(w: Weather, compose: Option<string>): (Fleet, nat) -> bool {
    (g: Fleet, k: nat) =>
      && Accounted(g) && Quiet(g.tables.guardians, w) && GetConfig(g.tables, GuardianCompose) == compose
      && AllAnswered(w.creates, k)
  }

  lemma NextComposed(w: Weather, compose: Option<string>, g: Fleet, k: nat)
    requires Composed(w, compose)(g, k) && UnclashingCalls(w)(g, k)
    ensures Advances(Provisioning(w), Composed(w, compose), g, k, 1)
    ensures Provisioning(w)(g, k).outcome.Returned? <==> Truthy(compose) && w.creates(k).Some?
  {
    CreationKeepsExternals(g, w, k);
    if Truthy(compose) && w.creates(k).Some? {
      OneCreation(g, w.creates(k).value, w.whileCreating(k), w.clock);
    } else {
      NoCreation(g, w.creates(k), w.whileCreating(k), w.clock);
    }
  }

  lemma ComposedAdvance(w: Weather, compose: Option<string>, needed: nat)
    ensures AllAdvance(Provisioning(w), needed, UnclashingCalls(w), Composed(w, compose), 1)
  {
    forall g, k: nat | UnclashingCalls(w)(g, k) && Composed(w, compose)(g, k)
      ensures Advances(Provisioning(w), Composed(w, compose), g, k, 1)
    {
      NextComposed(w, compose, g, k);
    }
  }

  /** The loop completes exactly when the compose file is there and the VM service answers every call. */
  lemma CompletesExactly(f: Fleet, w: Weather, needed: nat)
    requires Accounted(f) && Clashless(f, w, needed) && 0 < needed && Quiet(f.tables.guardians, w)
    ensures Turns(f, Provisioning(w), 0, needed).outcome.Returned? <==>
            Truthy(GetConfig(f.tables, GuardianCompose)) && AllAnswered(w.creates, needed)
  {
    var compose := GetConfig(f.tables, GuardianCompose);
    ComposedAdvance(w, compose, needed);
    var last, m := TurnsAdvanceFrom(f, Provisioning(w), 0, needed, UnclashingCalls(w), Composed(w, compose), 1);
    if m < needed { NextComposed(w, compose, last, m); }
    NextComposed(w, compose, f, 0);
  }

  lemma AllMadeExactly(f: Fleet, missing: nat, w: Weather)
    requires Accounted(f) && 0 < missing && Quiet(f.tables.guardians, w)
    requires Due(GuardianTimers(f.tables), w.clock) ==> Clashless(f, w, missing)
    ensures MakeUp(f, missing, w).made == missing <==>
            && Due(GuardianTimers(f.tables), w.clock) && Truthy(GetConfig(f.tables, GuardianCompose))
            && AllAnswered(w.creates, missing)
  {
    DeficitBranch(f, missing, w);
    if Due(GuardianTimers(f.tables), w.clock) {
      CompletesExactly(f, w, missing);
      ProvisioningGrows(f, w, missing);
    }
  }

  /**
    A section in deficit reaches its target exactly when nothing is pending, the deficit has been on record
    for ten minutes, the compose file is there and every VM it asks for is created.
   */
  lemma ReachesTargetExactly(f: Fleet, rows: seq<Guardian>, target: nat, w: Weather)
    requires Accounted(f) && GuardianListing(rows, f.tables, None) && SectionOrderly(f, rows, target, w)
    requires Quiet(f.tables.guardians, w) && |ActiveIds(f.tables.guardians)| < target
    ensures |ActiveIds(ManageGuardians(f, rows, target, w).fleet.tables.guardians)| == target <==>
            && Due(GuardianTimers(f.tables), w.clock) && Truthy(GetConfig(f.tables, GuardianCompose))
            && AllAnswered(w.creates, target - |ActiveIds(f.tables.guardians)|)
  {
    ActiveCountIsCardinality(rows, f.tables);
    GuardianSectionConverges(f, rows, target, w);
    AllMadeExactly(f, target - |ActiveRows(rows)|, w);
  }

  // ----- the backup section -----

  /** A new id, and nobody else writes the agent's rows. */
  ghost predicate NewBackup(f: Fleet, answer: Option<Vm>, others: Others) {
    Truthy(GetConfig(f.tables, AgentCompose)) ==>
      && Stands(f.tables, others(f.tables))
      && (answer.Some? ==> answer.value.id != "" && answer.value.id !in f.cloud.issued)
  }

  ghost function NewBackups(w: Weather): (Fleet, nat) -> bool {
    (f: Fleet, i: nat) => NewBackup(f, w.backupCreates(i), w.whileCreatingBackup(i))
  }

  /** What the backup section meets, whatever it does. */
  ghost predicate BackupsOrderly(f: Fleet, standby: nat, target: nat, w: Weather) {
    if standby < target then
      Due(BackupTimers(f.tables), w.backupClock) ==>
        Throughout(f, ProvisioningBackups(w), 0, target - standby, NewBackups(w))
    else
      var t := CalmBackups(f).tables;
      standby > target && Truthy(BackupVmOf(t)) ==> Stands(t, w.whileStoppingBackup(t))
  }

  /** Books that balance, and the agent's guardian rows as they were. */
  ghost predicate Conserves(f: Fleet, f': Fleet) {
    && Accounted(f') && OwnKept(f.tables.guardians, f'.tables.guardians)
    && LiveGuardianVms(f'.cloud) == LiveGuardianVms(f.cloud)
  }

  lemma OneBackup(f: Fleet, answer: Option<Vm>, others: Others)
    requires Accounted(f) && NewBackup(f, answer, others)
    ensures Conserves(f, ProvisionBackup(f, answer, others).fleet)
  {
    if Truthy(GetConfig(f.tables, AgentCompose)) {
      StandingKeepsBooks(f.tables, f.cloud, others(f.tables));
      if answer.Some? { EnterBackupVm(others(f.tables).guardians, f.cloud, BackupVmOf(f.tables), answer.value); }
    }
  }

  ghost function Conserving(f: Fleet): (Fleet, nat) -> bool {
    (g: Fleet, k: nat) => Conserves(f, g)
  }

  lemma BackupsAdvance(f: Fleet, w: Weather, needed: nat)
    ensures AllAdvance(ProvisioningBackups(w), needed, NewBackups(w), Conserving(f), 1)
  {
    forall g, k: nat | NewBackups(w)(g, k) && Conserving(f)(g, k)
      ensures Advances(ProvisioningBackups(w), Conserving(f), g, k, 1)
    {
      OneBackup(g, w.backupCreates(k), w.whileCreatingBackup(k));
    }
  }

  lemma BackupProvisioningConserves(f: Fleet, w: Weather, needed: nat)
    requires Accounted(f) && Throughout(f, ProvisioningBackups(w), 0, needed, NewBackups(w))
    ensures Conserves(f, Turns(f, ProvisioningBackups(w), 0, needed).fleet)
  {
    BackupsAdvance(f, w, needed);
    var last, m := TurnsAdvanceFrom(f, ProvisioningBackups(w), 0, needed, NewBackups(w), Conserving(f), 1);
  }

  lemma BackupDeficitConserves(f: Fleet, standby: nat, target: nat, w: Weather)
    requires Accounted(f) && standby < target && BackupsOrderly(f, standby, target, w)
    ensures Conserves(f, MakeUpBackups(f, target - standby, w).fleet)
  {
    if Due(BackupTimers(f.tables), w.backupClock) { BackupProvisioningConserves(f, w, target - standby); }
  }

  lemma BackupSurplusConserves(f: Fleet, standby: nat, target: nat, w: Weather)
    requires Accounted(f) && standby >= target && BackupsOrderly(f, standby, target, w)
    ensures Conserves(f, ManageBackups(f, standby, target, w).fleet)
  {
    var calm := CalmBackups(f);
    if standby > target && Truthy(BackupVmOf(f.tables)) {
      var t := w.whileStoppingBackup(calm.tables);
      StandingKeepsBooks(calm.tables, f.cloud, t);
      RetireBackupVm(t.guardians, f.cloud, BackupVmOf(t));
    }
  }

  /** The backup section never disturbs the guardian books, its own VM bookkeeping and other writers notwithstanding. */
  lemma BackupSectionConserves(f: Fleet, standby: nat, target: nat, w: Weather)
    requires Accounted(f) && BackupsOrderly(f, standby, target, w)
    ensures Conserves(f, ManageBackups(f, standby, target, w).fleet)
  {
    if standby < target {
      BackupDeficitConserves(f, standby, target, w);
    } else {
      BackupSurplusConserves(f, standby, target, w);
    }
  }

  // ----- when a backup VM is stopped -----

  ghost function KeepingVms(f: Fleet): Fleet -> bool {
    (g: Fleet) => f.cloud.live.Keys <= g.cloud.live.Keys
  }

  lemma BackupProvisioningStopsNothing(f: Fleet, missing: nat, w: Weather)
    ensures f.cloud.live.Keys <= MakeUpBackups(f, missing, w).fleet.cloud.live.Keys
  {
    forall g, k: nat | KeepingVms(f)(g) ensures KeepingVms(f)(ProvisioningBackups(w)(g, k).fleet) {
      var one := ProvisionBackup(g, w.backupCreates(k), w.whileCreatingBackup(k));
      assert g.cloud.live.Keys <= one.fleet.cloud.live.Keys;
    }
    TurnsKeep(f, ProvisioningBackups(w), 0, missing, KeepingVms(f));
  }

  /** The backup section stops the VM on record, and no other. */
  predicate StopsBackup(t: Tables, standby: nat, target: nat, works: bool) {
    standby > target && works && BackupVmOf(t).Some? && BackupVmOf(t).value != ""
  }

  /**
    A VM is stopped exactly when more backups stand by than are wanted, one is on record and the VM service does
    stop it; it is the one on record, and the record is cleared then. If the service fails, so does the section,
    and the record stays.
   */
  lemma BackupStopsExactly(f: Fleet, standby: nat, target: nat, w: Weather)
    requires BackupVmOf(w.whileStoppingBackup(CalmBackups(f).tables)) == BackupVmOf(f.tables)
    ensures var ran := ManageBackups(f, standby, target, w);
            var vm := BackupVmOf(f.tables);
            && (StopsBackup(f.tables, standby, target, w.backupStop) ==>
                  && ran.outcome.Returned? && BackupVmOf(ran.fleet.tables) == Some("")
                  && ran.fleet.cloud.live == f.cloud.live - {vm.value})
            && (!StopsBackup(f.tables, standby, target, w.backupStop) ==> f.cloud.live.Keys <= ran.fleet.cloud.live.Keys)
            && (standby >= target && !StopsBackup(f.tables, standby, target, w.backupStop) ==>
                  && ran.fleet.cloud == f.cloud && BackupVmOf(ran.fleet.tables) == vm
                  && (ran.outcome.Threw? <==> StopsBackup(f.tables, standby, target, true)))
  {
    if standby < target { BackupProvisioningStopsNothing(f, target - standby, w); }
  }
}
