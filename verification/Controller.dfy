/** The reconcile loop (controllers/velero/veleroinstall_controller.go, api/v1alpha2/reconcile.go,
    pkg/storage/storage.go). */
module Controller {
  import opened Options
  import opened Cloud
  import opened Phases
  import ObjectSync
  import S3
  import Gcs

  /** 60 minutes, with the clock counting seconds. */
  const RECONCILE_PERIOD: nat := 3600

  /** The infrastructure status of the cluster; absent platform details are None. */
  datatype PlatformStatus =
    | AwsStatus(region: Option<string>)
    | GcpStatus(regionAndProject: Option<(string, string)>)
    | OtherPlatform

  datatype Infrastructure = Infrastructure(platform: PlatformStatus, name: string)

  datatype DriverConfig = AwsDriver(aws: S3.Config) | GcpDriver(gcp: Gcs.Config)
  {
    function Platform(): Platform { if AwsDriver? then Aws else Gcp }

    function InfraName(): string {
      match this
      case AwsDriver(c) => c.infraName
      case GcpDriver(c) => c.infraName
    }
  }

  /** Drivers exist for AWS and GCP, and only when the platform details are filled in. */
  function NewDriver(infra: Infrastructure): Option<DriverConfig> {
    match infra.platform
    case AwsStatus(Some(region)) =>
      if region == "" then None else Some(AwsDriver(S3.Config(region, infra.name)))
    case GcpStatus(Some((region, project))) =>
      if region == "" || project == "" then None else Some(GcpDriver(Gcs.Config(region, project, infra.name)))
    case _ => None
  }

  function StorageStep(w: World, inst: Instance, d: DriverConfig): Reply {
    match d
    case AwsDriver(c) => S3.StorageStep(w, inst, c)
    case GcpDriver(c) => Gcs.StorageStep(w, inst, c)
  }

  /** Never synced, or synced too long ago. */
  predicate Stale(s: Status, now: nat) {
    s.lastSync.None? || now > s.lastSync.value + RECONCILE_PERIOD
  }

  predicate StorageBucketReconcileRequired(s: Status, now: nat) {
    s.name == "" || !s.provisioned || Stale(s, now)
  }

  /** The gate between bucket sync and Velero provisioning. */
  function Gate(w: World, inst: Instance, d: DriverConfig): (World, bool) {
    if StorageBucketReconcileRequired(inst.status, w.clock) then
      var r := StorageStep(w, inst, d);
      (r.w, r.ok)
    else
      (w.Noted(Provisioning(inst.status, w.clock)), true)
  }

  /** One reconcile, as far as buckets and status go. Reaching `provisionVelero` is recorded. */
  function ReconcileStep(w: World, infra: Infrastructure): (World, bool) {
    var (w1, a) := Load(w);
    match a
    case NotLoaded => (w1, false)
    case NotFound => (w1, true)
    case Got(inst) =>
      var (w2, ok) := Ping(w1);
      var d := NewDriver(infra);
      if !ok || d.None? then (w2, false) else Gate(w2, inst, d.value)
  }

  /** Any number of reconciles, one after the other. */
  function Run(w: World, infra: Infrastructure, n: nat): World {
    if n == 0 then w else ReconcileStep(Run(w, infra, n - 1), infra).0
  }

  /** The bucket Velero was provisioned for between `w` and `w'`, if it came to that. */
  function Reached(w: World, w': World): Option<string> {
    if |w'.log| > |w.log| && w'.log[|w'.log| - 1].Provisioning? then Some(w'.log[|w'.log| - 1].status.name) else None
  }

  /** A whole reconcile: once past the gate, Velero's objects are brought in line with the status. */
  function FullStep(w: World, c: ObjectSync.Cluster, infra: Infrastructure, srv: ObjectSync.Server,
                    x: ObjectSync.Design)
    : (World, ObjectSync.Cluster, bool)
    requires x.deployment.Workload?
  {
    var (w', ok) := ReconcileStep(w, infra);
    match Reached(w, w')
    case None => (w', c, ok)
    case Some(bucket) =>
      var (c', p) := ObjectSync.Provision(c, srv, x.For(bucket));
      (w', c', !p.Errored?)
  }

  lemma StorageStepIsCall(w: World, inst: Instance, d: DriverConfig)
    ensures Call(d.Platform(), d.InfraName(), w, inst, StorageStep(w, inst, d))
  {
    hide Call, S3.StorageStep, Gcs.StorageStep;
    match d
    case AwsDriver(c) => S3.StorageStepIsCall(w, inst, c);
    case GcpDriver(c) => Gcs.StorageStepIsCall(w, inst, c);
  }

  lemma StorageStepReachesNothing(w: World, inst: Instance, d: DriverConfig)
    ensures Reached(w, StorageStep(w, inst, d).w) == None
  {
    hide Move, Recorded, StorageStep;
    StorageStepIsCall(w, inst, d);
  }

  /** A reconcile that arrived at the gate in `w1`. */
  lemma PastTheGate(w: World, w1: World, inst: Instance, d: DriverConfig, c: ObjectSync.Cluster,
                    infra: Infrastructure, srv: ObjectSync.Server, x: ObjectSync.Design)
    requires x.deployment.Workload? && w1.log == w.log && ReconcileStep(w, infra) == Gate(w1, inst, d)
    ensures FullStep(w, c, infra, srv, x) ==
            if StorageBucketReconcileRequired(inst.status, w1.clock) then
              var r := StorageStep(w1, inst, d);
              (r.w, c, r.ok)
            else
              var (c', p) := ObjectSync.Provision(c, srv, x.For(inst.status.name));
              (w1.Noted(Provisioning(inst.status, w1.clock)), c', !p.Errored?)
  {
    hide ReconcileStep, StorageStep, ObjectSync.Provision;
    StorageStepReachesNothing(w1, inst, d);
  }

  datatype DriverRef = NoDriver | S3Ref(s3: S3.Driver) | GcsRef(gcs: Gcs.Driver)

  /** The controller object; its driver is created on first use and kept. */
  class VeleroInstallReconciler {
    var driver: DriverRef

    constructor ()
      ensures driver == NoDriver
    {
      driver := NoDriver;
    }

    /** A kept driver is the one the infrastructure calls for. */
    ghost predicate Valid(infra: Infrastructure)
      reads this
    {
      match driver
      case NoDriver => true
      case S3Ref(d) => NewDriver(infra) == Some(AwsDriver(d.config))
      case GcsRef(d) => NewDriver(infra) == Some(GcpDriver(d.config))
    }

    method Reconcile(env: Env, kube: ObjectSync.KubeClient, infra: Infrastructure, srv: ObjectSync.Server,
                     x: ObjectSync.Design)
      returns (ok: bool)
      requires Valid(infra) && x.deployment.Workload?
      modifies this, env, kube
      ensures Valid(infra)
      ensures (env.w, kube.c, ok) == FullStep(old(env.w), old(kube.c), infra, srv, x)
    {
      hide Load, ObjectSync.Provision;
      var loaded := Load(env.w);
      env.w := loaded.0;
      match loaded.1 {
        case NotLoaded => return false;
        case NotFound => return true;
        case Got(_) =>
      }
      var instance := new VeleroInstall(loaded.1.inst);
      var ping := Ping(env.w);
      env.w := ping.0;
      if !ping.1 {
        return false;
      }
      if driver.NoDriver? {
        var d := NewDriver(infra);
        if d.None? {
          return false;
        }
        match d.value {
          case AwsDriver(c) =>
            var s3 := new S3.Driver(c);
            driver := S3Ref(s3);
          case GcpDriver(c) =>
            var gcs := new Gcs.Driver(c);
            driver := GcsRef(gcs);
        }
      }
      ghost var d := NewDriver(infra).value;
      assert ReconcileStep(old(env.w), infra) == Gate(env.w, instance.Value(), d);
      PastTheGate(old(env.w), env.w, instance.Value(), d, kube.c, infra, srv, x);
      hide FullStep, ReconcileStep, Gate;
      if StorageBucketReconcileRequired(instance.Value().status, env.w.clock) {
        match driver {
          case S3Ref(d) => ok := d.CreateStorage(env, instance);
          case GcsRef(d) => ok := d.CreateStorage(env, instance);
        }
      } else {
        env.w := env.w.Noted(Provisioning(instance.Value().status, env.w.clock));
        var p := kube.ProvisionVelero(srv, x.For(instance.name));
        ok := !p.Errored?;
      }
    }
  }
}
