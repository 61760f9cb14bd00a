/** Buckets and objects together: runs of whole reconciles. */
module Operator {
  import opened Options
  import opened Cloud
  import opened Phases
  import opened Controller
  import opened Safety
  import opened OneBucket
  import opened ObjectSync
  import opened ObjectConvergence
  import opened Convergence
  import S3
  import Gcs

  datatype System = System(w: World, c: Cluster)

  /** Any number of whole reconciles; before each, outsiders may do anything to the objects. */
  function RunAll(s: System, infra: Infrastructure, srv: Server, x: Design,
                  outside: (nat, map<Key, Object>) -> map<Key, Object>, n: nat): System
    requires x.deployment.Workload?
  {
    if n == 0 then s
    else
      var s1 := RunAll(s, infra, srv, x, outside, n - 1);
      var (w, c, _) := FullStep(s1.w, s1.c.(objects := outside(n - 1, s1.c.objects)), infra, srv, x);
      System(w, c)
  }

  // ---- What is ever written as a backup location ----

  predicate IsLocation(wr: Write) { wr.key.kind.BackupStorageLocation? }

  /** The new writes of backup locations all name the bucket. */
  ghost predicate Names(bucket: string, c: Cluster, c': Cluster) {
    c.writes <= c'.writes &&
    forall i :: |c.writes| <= i < |c'.writes| && IsLocation(c'.writes[i]) ==>
      c'.writes[i].obj.spec.Location? && c'.writes[i].obj.spec.bucket == bucket
  }

  ghost predicate ItemNames(item: Item, bucket: string) {
    item.key.kind.BackupStorageLocation? ==> item.want.spec.Location? && item.want.spec.bucket == bucket
  }

  lemma EnsureNames(c: Cluster, srv: Server, key: Key, want: Object, bucket: string)
    requires ItemNames(Item(key, want), bucket)
    ensures Names(bucket, c, Ensure(c, srv, key, want).0)
  {
    hide Same;
  }

  lemma {:induction false} EnsureAllNames(c: Cluster, srv: Server, items: seq<Item>, bucket: string)
    requires forall i :: 0 <= i < |items| ==> ItemNames(items[i], bucket)
    ensures Names(bucket, c, EnsureAll(c, srv, items).0)
    decreases |items|
  {
    if items != [] {
      hide Ensure, ItemNames;
      EnsureNames(c, srv, items[0].key, items[0].want, bucket);
      EnsureAllNames(Ensure(c, srv, items[0].key, items[0].want).0, srv, items[1..], bucket);
    }
  }

  lemma ProvisionNames(c: Cluster, srv: Server, t: Wants)
    requires t.deployment.Workload?
    ensures Names(t.bucket, c, Provision(c, srv, t).0)
  {
    hide EnsureAll, Ensure, ServiceObject, MonitorObject;
    EnsureAllNames(c, srv, if t.cr.Some? then FirstFour(t) else [BslItem(t), VslItem(t)], t.bucket);
    if t.cr.Some? {
      var c1 := EnsureAll(c, srv, FirstFour(t)).0;
      EnsureNames(c1, srv, SERVICE_KEY, ServiceObject(t), t.bucket);
      var (c2, r) := Ensure(c1, srv, SERVICE_KEY, ServiceObject(t));
      if r.Fine? {
        EnsureNames(c2, srv, MONITOR_KEY, MonitorObject(r.obj), t.bucket);
      }
    }
  }

  /** The reconcile that took `w` to `w'` provisioned Velero, as its last act and at the time it ended, for
      the bucket that the write names; and this was justified at that time. */
  ghost predicate WrittenFor(d: DriverConfig, w: World, w': World, wr: Write) {
    && |w.log| < |w'.log| && w.log <= w'.log
    && var last := |w'.log| - 1;
    && w'.log[last].Provisioning? && w'.log[last].at == w'.clock
    && wr.obj.spec.Location? && wr.obj.spec.bucket == w'.log[last].status.name
    && JustifiedAt(d, w'.log, last)
  }

  /** Every backup location written between the two states was written for a provisioning of just then. */
  ghost predicate StepBacked(d: DriverConfig, s: System, s': System) {
    && s.c.writes <= s'.c.writes && s.w.log <= s'.w.log
    && forall i :: |s.c.writes| <= i < |s'.c.writes| && IsLocation(s'.c.writes[i]) ==>
         WrittenFor(d, s.w, s'.w, s'.c.writes[i])
  }

  lemma ReachedNow(w: World, infra: Infrastructure, d: DriverConfig)
    requires NewDriver(infra) == Some(d)
    ensures var w' := ReconcileStep(w, infra).0;
            Reached(w, w').Some? ==> w'.log[|w'.log| - 1].at == w'.clock
  {
    hide ReconcileStep, StorageStep;
    var w1, inst := ReconcileCases(w, infra, d);
    StorageStepReachesNothing(w1, inst, d);
  }

  lemma FullStepBacked(s: System, infra: Infrastructure, srv: Server, x: Design, d: DriverConfig,
                       objects: map<Key, Object>)
    requires x.deployment.Workload? && NewDriver(infra) == Some(d) && Inv(d, s.w)
    ensures var (w, c, _) := FullStep(s.w, s.c.(objects := objects), infra, srv, x);
            Inv(d, w) && StepBacked(d, s, System(w, c))
  {
    hide ReconcileStep, Provision, JustifiedAt, Follows, Recorded;
    ReconcileKeepsInv(s.w, infra, d);
    ReconcileExtends(s.w, infra);
    ReachedNow(s.w, infra, d);
    var w := ReconcileStep(s.w, infra).0;
    match Reached(s.w, w) {
      case None =>
      case Some(bucket) =>
        ProvisionNames(s.c.(objects := objects), srv, x.For(bucket));
        assert JustifiedAt(d, w.log, |w.log| - 1);
    }
  }

  lemma {:induction false} RunAllKeepsInv(s: System, infra: Infrastructure, srv: Server, x: Design, d: DriverConfig,
                                          outside: (nat, map<Key, Object>) -> map<Key, Object>, n: nat)
    requires x.deployment.Workload? && Init(s.w) && NewDriver(infra) == Some(d)
    ensures Inv(d, RunAll(s, infra, srv, x, outside, n).w)
    ensures n > 0 ==> StepBacked(d, RunAll(s, infra, srv, x, outside, n - 1), RunAll(s, infra, srv, x, outside, n))
  {
    hide FullStep, JustifiedAt, StepBacked;
    if n > 0 {
      RunAllKeepsInv(s, infra, srv, x, d, outside, n - 1);
      var s1 := RunAll(s, infra, srv, x, outside, n - 1);
      FullStepBacked(s1, infra, srv, x, d, outside(n - 1, s1.c.objects));
    }
  }

  /** Over all runs, whatever fails and whoever interferes with buckets and objects: every backup location the
      operator ever writes is written in a reconcile `m` that provisions Velero for just that bucket, when a
      complete enforcement of it was over and its last setting at most the reconcile period old. */
  lemma {:induction false} LocationsAreBacked(s: System, infra: Infrastructure, srv: Server, x: Design, d: DriverConfig,
                                              outside: (nat, map<Key, Object>) -> map<Key, Object>, n: nat, i: nat)
    returns (m: nat)
    requires x.deployment.Workload? && Init(s.w) && s.c.writes == [] && NewDriver(infra) == Some(d)
    requires var s' := RunAll(s, infra, srv, x, outside, n);
             i < |s'.c.writes| && IsLocation(s'.c.writes[i])
    ensures m < n
    ensures var s', s1, s2 := RunAll(s, infra, srv, x, outside, n),
                              RunAll(s, infra, srv, x, outside, m), RunAll(s, infra, srv, x, outside, m + 1);
            && |s1.c.writes| <= i < |s2.c.writes| && s2.c.writes <= s'.c.writes && s2.w.log <= s'.w.log
            && WrittenFor(d, s1.w, s2.w, s'.c.writes[i])
  {
    hide FullStep, WrittenFor;
    RunAllKeepsInv(s, infra, srv, x, d, outside, n);
    var before := RunAll(s, infra, srv, x, outside, n - 1);
    hide RunAll;
    if i < |before.c.writes| {
      m := LocationsAreBacked(s, infra, srv, x, d, outside, n - 1, i);
    } else {
      m := n - 1;
    }
  }

  // ---- Velero gets installed ----

  /** No outsider touches the objects. */
  function Nobody(k: nat, objects: map<Key, Object>): map<Key, Object> { objects }

  lemma CalmFullStep(w: World, c: Cluster, infra: Infrastructure, srv: Server, x: Design, d: DriverConfig)
    requires Calm(w) && |w.saved| > 0 && NewDriver(infra) == Some(d) && x.deployment.Workload?
    requires Current(w).name != "" && Current(w).provisioned && Current(w).lastSync.Some?
    requires w.clock + w.Turn().tick + w.Next().Turn().tick <= Current(w).lastSync.value + RECONCILE_PERIOD
    ensures var (w', c', _) := FullStep(w, c, infra, srv, x);
            && c' == Provision(c, srv, x.For(Current(w).name)).0
            && Calm(w') && w'.saved == w.saved && w'.turns == w.turns && w'.pos == w.pos + 2
            && w'.clock == w.clock + w.Turn().tick + w.Next().Turn().tick
  {
    hide ReconcileStep, StorageStep, Provision;
    var w1, inst := CalmReconcile(w, infra, d);
    PastTheGate(w, w1, inst, d, c, infra, srv, x);
  }

  /** Reading the status and the infrastructure already takes its time. */
  lemma CalmClock(w: World, infra: Infrastructure, d: DriverConfig)
    requires Calm(w) && |w.saved| > 0 && NewDriver(infra) == Some(d)
    ensures w.clock + w.Turn().tick + w.Next().Turn().tick <= ReconcileStep(w, infra).0.clock
  {
    hide ReconcileStep, StorageStep, Call;
    var w1, inst := CalmReconcile(w, infra, d);
    StorageStepIsCall(w1, inst, d);
    CallExtends(d.Platform(), d.InfraName(), w1, inst, StorageStep(w1, inst, d));
  }

  /** Buckets and status do not depend on the objects. */
  lemma {:induction false} RunAllWorld(s: System, infra: Infrastructure, srv: Server, x: Design,
                                       outside: (nat, map<Key, Object>) -> map<Key, Object>, n: nat)
    requires x.deployment.Workload?
    ensures RunAll(s, infra, srv, x, outside, n).w == Run(s.w, infra, n)
  {
    hide ReconcileStep, Provision;
    if n > 0 {
      RunAllWorld(s, infra, srv, x, outside, n - 1);
    }
  }

  /** In calm weather, if they end while the status is still fresh, two reconciles bring all of Velero's objects
      in line with the bucket the status names, unless the stored credentials request cannot be compared. */
  lemma VeleroIsInstalled(s: System, infra: Infrastructure, srv: Server, x: Design, d: DriverConfig)
    requires Calm(s.w) && |s.w.saved| > 0 && NoFaults(s.c) && NewDriver(infra) == Some(d)
    requires Current(s.w).name != "" && Current(s.w).provisioned && Current(s.w).lastSync.Some?
    requires Plan(srv, x.For(Current(s.w).name))
    requires Run(s.w, infra, 2).clock <= Current(s.w).lastSync.value + RECONCILE_PERIOD
    ensures var s' := RunAll(s, infra, srv, x, Nobody, 2);
            s'.w.saved == s.w.saved && (InPlace(s'.c, srv, x, Current(s.w).name) <==> !Blocked(s.c, srv))
  {
    hide ReconcileStep, Provision, Readable, Blocked, InPlace;
    var t := x.For(Current(s.w).name);
    var w1 := ReconcileStep(s.w, infra).0;
    TwoSteps(s, infra, srv, x);
    CalmClock(s.w, infra, d);
    ReconcileExtends(w1, infra);
    CalmFullStep(s.w, s.c, infra, srv, x, d);
    CalmClock(w1, infra, d);
    CalmFullStep(w1, Provision(s.c, srv, t).0, infra, srv, x, d);
    TwoPassesInstall(s.c, srv, x, Current(s.w).name);
  }

  lemma TwoSteps(s: System, infra: Infrastructure, srv: Server, x: Design)
    requires x.deployment.Workload?
    ensures var (w1, c1, _) := FullStep(s.w, s.c, infra, srv, x);
            var (w2, c2, _) := FullStep(w1, c1, infra, srv, x);
            RunAll(s, infra, srv, x, Nobody, 2) == System(w2, c2)
    ensures Run(s.w, infra, 2) == ReconcileStep(ReconcileStep(s.w, infra).0, infra).0
  {
    hide FullStep, ReconcileStep;
    assert RunAll(s, infra, srv, x, Nobody, 0) == s && Run(s.w, infra, 0) == s.w;
    var (w1, c1, _) := FullStep(s.w, s.c, infra, srv, x);
    assert s.c.(objects := Nobody(0, s.c.objects)) == s.c && c1.(objects := Nobody(1, c1.objects)) == c1;
    assert RunAll(s, infra, srv, x, Nobody, 1) == System(w1, c1);
    assert Run(s.w, infra, 1) == ReconcileStep(s.w, infra).0;
  }

  // ---- From wherever things stand ----

  /** The operator's design makes sense for every bucket. */
  ghost predicate SoundDesign(srv: Server, x: Design) {
    x.deployment.Workload? && forall bucket: string :: Plan(srv, x.For(bucket))
  }

  lemma ProvisionKeepsBlocked(c: Cluster, srv: Server, t: Wants)
    requires Plan(srv, t)
    ensures var c' := Provision(c, srv, t).0;
            (Blocked(c', srv) <==> Blocked(c, srv)) && (NoFaults(c) ==> NoFaults(c'))
  {
    hide Provision, Blocked, Readable, Desired, Unreadably;
    var c' := Provision(c, srv, t).0;
    BlockedIsUnreadable(c, srv, t);
    BlockedIsUnreadable(c', srv, t);
    var k := ProvisionPass(c, srv, t);
    assert Six(c, t)[2] == CrItem(t);
    if Unreadably(c, srv, CrItem(t)) {
      UnreadableStays(c, srv, t);
    } else if Untouched(c, c', CrItem(t).key) {
      DesiredIfUntouched(c, c', srv, CrItem(t));
    } else {
      DesiredIsReadable(c', srv, CrItem(t));
    }
  }

  lemma {:induction false} RunAllKeepsBlocked(s: System, infra: Infrastructure, srv: Server, x: Design, n: nat)
    requires SoundDesign(srv, x) && NoFaults(s.c)
    ensures var s' := RunAll(s, infra, srv, x, Nobody, n);
            (Blocked(s'.c, srv) <==> Blocked(s.c, srv)) && NoFaults(s'.c)
  {
    hide ReconcileStep, Provision, Blocked, Plan;
    if n > 0 {
      RunAllKeepsBlocked(s, infra, srv, x, n - 1);
      var s1 := RunAll(s, infra, srv, x, Nobody, n - 1);
      assert s1.c.(objects := Nobody(n - 1, s1.c.objects)) == s1.c;
      match Reached(s1.w, ReconcileStep(s1.w, infra).0) {
        case None =>
        case Some(bucket) =>
          assert Plan(srv, x.For(bucket));
          ProvisionKeepsBlocked(s1.c, srv, x.For(bucket));
      }
    }
  }

  lemma {:induction false} RunAllAdds(s: System, infra: Infrastructure, srv: Server, x: Design, k: nat, n: nat)
    requires x.deployment.Workload?
    ensures RunAll(RunAll(s, infra, srv, x, Nobody, k), infra, srv, x, Nobody, n)
            == RunAll(s, infra, srv, x, Nobody, k + n)
  {
    hide FullStep;
    if n > 0 {
      RunAllAdds(s, infra, srv, x, k, n - 1);
    }
  }

  /** All of Velero's objects are in line with the bucket that the status names. */
  ghost predicate Installed(s: System, srv: Server, x: Design)
    requires SoundDesign(srv, x)
  {
    |s.w.saved| > 0 && InPlace(s.c, srv, x, Current(s.w).name)
  }

  /** Two reconciles after the status was synced, Velero is installed. */
  lemma InstalledAfter(s: System, infra: Infrastructure, srv: Server, x: Design, d: DriverConfig, k: nat)
    requires SoundDesign(srv, x) && NoFaults(s.c) && NewDriver(infra) == Some(d)
    requires var w := Run(s.w, infra, k);
             && Calm(w) && |w.saved| > 0 && Current(w).name != "" && Current(w).provisioned
             && Current(w).lastSync.Some? && s.w.clock <= Current(w).lastSync.value
    requires Run(s.w, infra, k + 2).clock <= s.w.clock + RECONCILE_PERIOD
    ensures Installed(RunAll(s, infra, srv, x, Nobody, k + 2), srv, x) <==> !Blocked(s.c, srv)
  {
    hide RunAll, Run, Plan, Blocked, InPlace;
    var s1 := RunAll(s, infra, srv, x, Nobody, k);
    RunAllWorld(s, infra, srv, x, Nobody, k);
    RunAllKeepsBlocked(s, infra, srv, x, k);
    RunAllAdds(s, infra, srv, x, k, 2);
    RunAllWorld(s, infra, srv, x, Nobody, k + 2);
    RunAllWorld(s1, infra, srv, x, Nobody, 2);
    var t := x.For(Current(s1.w).name);
    assert Plan(srv, t);
    VeleroIsInstalled(s1, infra, srv, x, d);
  }

  /** On S3, from any state that is not hijacked: once the weather is calm, five reconciles that take no longer
      than the period sync the bucket and install Velero for it, unless the stored credentials request cannot
      be compared. */
  lemma S3InstallsVelero(s: System, infra: Infrastructure, srv: Server, x: Design, d: S3.Config)
    requires S3Pending(s.w) && NoFaults(s.c) && SoundDesign(srv, x) && NewDriver(infra) == Some(AwsDriver(d))
    requires Run(s.w, infra, 5).clock <= s.w.clock + RECONCILE_PERIOD
    ensures S3Synced(Run(s.w, infra, 3), d.infraName, s.w.clock)
    ensures Installed(RunAll(s, infra, srv, x, Nobody, 5), srv, x) <==> !Blocked(s.c, srv)
  {
    hide Run, RunAll, SoundDesign, Installed, Blocked, S3Pending;
    S3SelfHeals(s.w, infra, d, 3);
    S3Progress(s.w, infra, d, 3);
    InstalledAfter(s, infra, srv, x, AwsDriver(d), 3);
  }

  /** On GCS, from any state that is not stuck, four do. */
  lemma GcsInstallsVelero(s: System, infra: Infrastructure, srv: Server, x: Design, d: Gcs.Config)
    requires GcsPending(s.w) && !GcsStuck(s.w) && NoFaults(s.c) && SoundDesign(srv, x)
    requires NewDriver(infra) == Some(GcpDriver(d))
    requires Run(s.w, infra, 4).clock <= s.w.clock + RECONCILE_PERIOD
    ensures GcsSynced(Run(s.w, infra, 2), d.infraName, s.w.clock)
    ensures Installed(RunAll(s, infra, srv, x, Nobody, 4), srv, x) <==> !Blocked(s.c, srv)
  {
    hide Run, RunAll, SoundDesign, Installed, Blocked, GcsPending, GcsStuck;
    GcsUnstuckSyncs(s.w, infra, d, 2);
    InstalledAfter(s, infra, srv, x, GcpDriver(d), 2);
  }
}
