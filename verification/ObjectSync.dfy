/** Level-triggered installation of Velero's objects (controllers/velero/velero.go, pkg/velero/crds.go). */
module ObjectSync {
  import opened Options
  import opened Cloud

  // ---- Objects and the API server ----

  datatype Kind =
    | BackupStorageLocation
    | VolumeSnapshotLocation
    | CredentialsRequest
    | Deployment
    | Service
    | ServiceMonitor
    | CustomResourceDefinition

  datatype Key = Key(kind: Kind, name: string)

  datatype Port = Port(name: string, protocol: string, number: int)

  /** A service port and the container port it targets. */
  datatype ServicePort = ServicePort(port: Port, target: int)

  /** The five Service fields the cluster fills in. */
  datatype ClusterFields = ClusterFields(
    clusterIP: string,
    clusterIPs: seq<string>,
    ipFamilies: seq<string>,
    ipFamilyPolicy: Option<string>,
    internalTrafficPolicy: Option<string>)

  /** Everything of a spec that is only ever compared is an opaque text. */
  datatype Spec =
    | Plain(text: string)
    | Location(bucket: string, text: string)
    | Credentials(provider: Option<string>, rest: string)
    | Workload(containers: seq<seq<Port>>, podLabels: map<string, string>, text: string)
    | Endpoint(ports: seq<ServicePort>, selector: map<string, string>, text: string, fields: ClusterFields)
    | Monitor(matchLabels: map<string, string>, endpoints: seq<string>)

  datatype Object = Object(labels: map<string, string>, spec: Spec)

  /** How the API server may rewrite what it is given: it may re-encode provider specs, fills in the
      assigned fields of a new Service, and may default or prune anything else. `decode` is the operator's
      decoder of provider specs. */
  datatype Server = Server(
    decode: string -> Option<string>,
    recode: string -> string,
    assign: ClusterFields -> ClusterFields,
    rewrite: Spec -> Spec)

  /** Re-encoding does not change what a provider spec decodes to, and nothing else is rewritten. */
  ghost predicate Honest(srv: Server) {
    && (forall raw: string :: srv.decode(srv.recode(raw)) == srv.decode(raw))
    && (forall spec: Spec :: srv.rewrite(spec) == spec)
  }

  function Stored(srv: Server, spec: Spec, creating: bool): Spec {
    srv.rewrite(
      match spec
      case Credentials(Some(raw), rest) => Credentials(Some(srv.recode(raw)), rest)
      case Endpoint(ports, selector, text, fields) =>
        if creating then Endpoint(ports, selector, text, srv.assign(fields)) else spec
      case _ => spec)
  }

  datatype Write = Write(key: Key, obj: Object)

  /** The cluster, what was sent in every write so far that took effect, and the fate of every call to come. */
  datatype Cluster = Cluster(objects: map<Key, Object>, writes: seq<Write>, fates: nat -> Fate, pos: nat)
  {
    function Fate(): Fate { fates(pos) }

    function Next(): Cluster { this.(pos := pos + 1) }

    function Put(key: Key, sent: Object, stored: Object): Cluster {
      this.(objects := objects[key := stored], writes := writes + [Write(key, sent)], pos := pos + 1)
    }
  }

  datatype Reading = There(obj: Object) | Missing | Unreadable

  function Get(c: Cluster, key: Key): (Cluster, Reading) {
    (c.Next(),
     if !c.Fate().Served? then Unreadable else if key in c.objects then There(c.objects[key]) else Missing)
  }

  function StoredObject(srv: Server, obj: Object, creating: bool): Object {
    Object(obj.labels, Stored(srv, obj.spec, creating))
  }

  /** Create or update. */
  function Send(c: Cluster, srv: Server, key: Key, obj: Object, creating: bool): (Cluster, bool) {
    var stored := StoredObject(srv, obj, creating);
    match c.Fate()
    case Served => (c.Put(key, obj, stored), true)
    case Lost => (c.Put(key, obj, stored), false)
    case _ => (c.Next(), false)
  }

  // ---- Comparing ----

  datatype Comparison = Compared(same: bool) | Undecodable | NilPointer

  /** Two provider specs are compared decoded and the rest literally. An undecodable one is an error; an
      absent one is a nil pointer that the comparison dereferences. */
  function CredentialsRequestSpecEqual(srv: Server, x: Spec, y: Spec): Comparison
    requires x.Credentials? && y.Credentials?
  {
    if x.provider.None? then NilPointer
    else
      var xps := srv.decode(x.provider.value);
      if xps.None? then Undecodable
      else if y.provider.None? then NilPointer
      else
        var yps := srv.decode(y.provider.value);
        if yps.None? then Undecodable else Compared(xps == yps && x.rest == y.rest)
  }

  predicate Readable(srv: Server, x: Spec) {
    x.Credentials? && x.provider.Some? && srv.decode(x.provider.value).Some?
  }

  /** On readable specs the comparison is an equivalence that no honest re-encoding can upset; on others it
      never answers, not even for a spec and itself. */
  lemma SpecEqualIsEquivalence(srv: Server, x: Spec, y: Spec, z: Spec)
    requires x.Credentials? && y.Credentials? && z.Credentials? && Honest(srv)
    ensures CredentialsRequestSpecEqual(srv, x, y).Compared? <==> Readable(srv, x) && Readable(srv, y)
    ensures CredentialsRequestSpecEqual(srv, x, y).NilPointer? <==>
            x.provider.None? || (y.provider.None? && Readable(srv, x))
    ensures CredentialsRequestSpecEqual(srv, x, y) == Compared(true) <==>
            Readable(srv, x) && Readable(srv, y)
            && srv.decode(x.provider.value) == srv.decode(y.provider.value) && x.rest == y.rest
    ensures Readable(srv, x) ==> CredentialsRequestSpecEqual(srv, x, x) == Compared(true)
    ensures CredentialsRequestSpecEqual(srv, x, y).Compared? ==>
              CredentialsRequestSpecEqual(srv, x, y) == CredentialsRequestSpecEqual(srv, y, x)
    ensures CredentialsRequestSpecEqual(srv, x, y) == CredentialsRequestSpecEqual(srv, y, z) == Compared(true)
            ==> CredentialsRequestSpecEqual(srv, x, z) == Compared(true)
    ensures forall creating :: CredentialsRequestSpecEqual(srv, Stored(srv, x, creating), y)
                               == CredentialsRequestSpecEqual(srv, x, y)
  {
  }

  /** What an update writes: a Service keeps the five fields the cluster assigned. */
  function Target(found: Spec, want: Spec): Spec {
    if found.Endpoint? && want.Endpoint? then want.(fields := found.fields) else want
  }

  /** Whether a stored spec is as wanted; None when the comparison itself fails, which ends the reconcile. */
  function Same(srv: Server, found: Spec, want: Spec): Option<bool> {
    if found.Credentials? && want.Credentials? then
      match CredentialsRequestSpecEqual(srv, found, want)
      case Compared(same) => Some(same)
      case _ => None
    else Some(found == Target(found, want))
  }

  // ---- The ensure step ----

  datatype Result = Fine(obj: Object) | Installed | Stopped

  /** Get, then create, leave alone or update; an update leaves the stored object in the caller's copy. */
  function Ensure(c: Cluster, srv: Server, key: Key, want: Object): (Cluster, Result) {
    var (c1, found) := Get(c, key);
    match found
    case Unreadable => (c1, Stopped)
    case Missing =>
      var (c2, ok) := Send(c1, srv, key, want, true);
      (c2, if ok then Installed else Stopped)
    case There(obj) =>
      match Same(srv, obj.spec, want.spec)
      case None => (c1, Stopped)
      case Some(true) => (c1, Fine(obj))
      case Some(false) =>
        var obj' := obj.(spec := Target(obj.spec, want.spec));
        var (c2, ok) := Send(c1, srv, key, obj', false);
        (c2, if ok then Fine(StoredObject(srv, obj', false)) else Stopped)
  }

  datatype Item = Item(key: Key, want: Object)

  /** Ensures the items one after the other, stopping at the first error. */
  function EnsureAll(c: Cluster, srv: Server, items: seq<Item>): (Cluster, bool)
    decreases |items|
  {
    if items == [] then (c, true)
    else
      var (c1, r) := Ensure(c, srv, items[0].key, items[0].want);
      if r.Stopped? then (c1, false) else EnsureAll(c1, srv, items[1..])
  }

  // ---- What is wanted ----

  predicate Contains(s: string, part: string) {
    exists i :: 0 <= i <= |s| && part <= s[i..]
  }

  /** The usual meaning: the part occurs somewhere in the text. */
  lemma ContainsMeans(s: string, part: string)
    ensures Contains(s, part) <==> exists a: string, b: string :: s == a + part + b
  {
    if Contains(s, part) {
      var i :| 0 <= i <= |s| && part <= s[i..];
      assert s[i..][..|part|] == part;
      assert s == s[..i] + part + s[i + |part|..];
    }
    forall a: string, b: string | s == a + part + b ensures Contains(s, part) {
      Infix(a, part, b);
    }
  }

  lemma Infix(a: string, part: string, b: string)
    ensures Contains(a + part + b, part)
  {
    assert (a + part + b)[|a|..] == part + b;
  }

  function ServicePortOf(p: Port): ServicePort { ServicePort(p, p.number) }

  function MetricsOf(ports: seq<Port>): seq<ServicePort> {
    if ports == [] then []
    else (if Contains(ports[0].name, "metrics") then [ServicePortOf(ports[0])] else []) + MetricsOf(ports[1..])
  }

  /** All ports of all containers, in order. */
  function Flat(containers: seq<seq<Port>>): seq<Port> {
    if containers == [] then [] else containers[0] + Flat(containers[1..])
  }

  lemma {:induction false} MetricsOfConcat(a: seq<Port>, b: seq<Port>)
    ensures MetricsOf(a + b) == MetricsOf(a) + MetricsOf(b)
  {
    hide Contains;
    if a == [] {
      assert a + b == b;
    } else {
      assert (a + b)[1..] == a[1..] + b;
      MetricsOfConcat(a[1..], b);
      var first := if Contains(a[0].name, "metrics") then [ServicePortOf(a[0])] else [];
      assert MetricsOf(a + b) == first + (MetricsOf(a[1..]) + MetricsOf(b));
      assert MetricsOf(a + b) == first + MetricsOf(a[1..]) + MetricsOf(b);
    }
  }

  lemma {:induction false} FlatSnoc(cs: seq<seq<Port>>, ports: seq<Port>)
    ensures Flat(cs + [ports]) == Flat(cs) + ports
  {
    if cs == [] {
      assert [ports] + [] == [ports];
    } else {
      assert (cs + [ports])[1..] == cs[1..] + [ports];
      FlatSnoc(cs[1..], ports);
    }
  }

  /** The Service's ports: those container ports whose name contains "metrics". */
  method MetricsServicePorts(containers: seq<seq<Port>>) returns (ports: seq<ServicePort>)
    ensures ports == MetricsOf(Flat(containers))
  {
    ports := [];
    for i := 0 to |containers|
      invariant ports == MetricsOf(Flat(containers[..i]))
    {
      assert containers[..i + 1] == containers[..i] + [containers[i]];
      FlatSnoc(containers[..i], containers[i]);
      var done := Flat(containers[..i]);
      assert done + containers[i][..0] == done;
      for j := 0 to |containers[i]|
        invariant ports == MetricsOf(done + containers[i][..j])
      {
        var p := containers[i][j];
        assert done + containers[i][..j + 1] == done + containers[i][..j] + [p];
        MetricsOfConcat(done + containers[i][..j], [p]);
        if Contains(p.name, "metrics") {
          ports := ports + [ServicePortOf(p)];
        }
      }
      assert containers[i][..|containers[i]|] == containers[i];
    }
    assert containers[..|containers|] == containers;
  }

  function PortNames(ports: seq<ServicePort>): seq<string> {
    seq(|ports|, i requires 0 <= i < |ports| => ports[i].port.name)
  }

  method PopulateEndpointsFromServicePorts(ports: seq<ServicePort>) returns (endpoints: seq<string>)
    ensures endpoints == PortNames(ports)
  {
    endpoints := [];
    for i := 0 to |ports|
      invariant endpoints == PortNames(ports[..i])
    {
      endpoints := endpoints + [ports[i].port.name];
    }
    assert ports[..|ports|] == ports;
  }

  /** The desired state for a bucket; the credentials are missing when the region belongs to no known
      partition. */
  datatype Wants = Wants(
    bucket: string,
    locationText: string,
    vsl: Spec,
    cr: Option<Spec>,
    deployment: Spec,
    serviceText: string)

  /** What the platform decides about the desired state; the rest is the bucket's name. */
  datatype Design = Design(
    locationText: string,
    vsl: Spec,
    cr: string -> Option<Spec>,
    deployment: Spec,
    serviceText: string)
  {
    function For(bucket: string): Wants {
      Wants(bucket, locationText, vsl, cr(bucket), deployment, serviceText)
    }
  }

  const DEPLOYMENT_NAME := "velero"
  const CREDENTIALS_NAME := "velero-iam-credentials"
  const UNASSIGNED := ClusterFields("", [], [], None, None)

  function BslItem(t: Wants): Item {
    Item(Key(BackupStorageLocation, "default"), Object(map[], Location(t.bucket, t.locationText)))
  }

  function VslItem(t: Wants): Item { Item(Key(VolumeSnapshotLocation, "default"), Object(map[], t.vsl)) }

  function DeploymentItem(t: Wants): Item { Item(Key(Deployment, DEPLOYMENT_NAME), Object(map[], t.deployment)) }

  function CrItem(t: Wants): Item
    requires t.cr.Some?
  {
    Item(Key(CredentialsRequest, CREDENTIALS_NAME), Object(map[], t.cr.value))
  }

  const SERVICE_KEY := Key(Service, DEPLOYMENT_NAME + "-metrics")
  const MONITOR_KEY := Key(ServiceMonitor, DEPLOYMENT_NAME + "-metrics")

  /** metricsServiceFromDeployment. */
  function ServiceObject(t: Wants): Object
    requires t.deployment.Workload?
  {
    Object(map["name" := DEPLOYMENT_NAME],
      Endpoint(MetricsOf(Flat(t.deployment.containers)), t.deployment.podLabels, t.serviceText, UNASSIGNED))
  }

  /** generateServiceMonitor: labels and ports come from the stored Service. */
  function MonitorObject(service: Object): Object {
    Object(service.labels,
      Monitor(service.labels, if service.spec.Endpoint? then PortNames(service.spec.ports) else []))
  }

  datatype Pass = Complete | Requeued | Errored

  /** provisionVelero. */
  function Provision(c: Cluster, srv: Server, t: Wants): (Cluster, Pass)
    requires t.deployment.Workload?
  {
    if t.cr.None? then (EnsureAll(c, srv, [BslItem(t), VslItem(t)]).0, Errored)
    else
      var (c1, ok) := EnsureAll(c, srv, FirstFour(t));
      if !ok then (c1, Errored) else ProvisionMetrics(c1, srv, t)
  }

  function FirstFour(t: Wants): seq<Item>
    requires t.cr.Some?
  {
    [BslItem(t), VslItem(t), CrItem(t), DeploymentItem(t)]
  }

  /** A new Service is read back on the next pass before its ServiceMonitor is derived. */
  function ProvisionMetrics(c: Cluster, srv: Server, t: Wants): (Cluster, Pass)
    requires t.deployment.Workload?
  {
    var (c1, r) := Ensure(c, srv, SERVICE_KEY, ServiceObject(t));
    match r
    case Stopped => (c1, Errored)
    case Installed => (c1, Requeued)
    case Fine(service) =>
      var (c2, r2) := Ensure(c1, srv, MONITOR_KEY, MonitorObject(service));
      (c2, if r2.Stopped? then Errored else Complete)
  }

  // ---- The same as imperative code ----

  class KubeClient {
    var c: Cluster

    method EnsureObject(srv: Server, key: Key, want: Object) returns (r: Result)
      modifies this
      ensures (c, r) == Ensure(old(c), srv, key, want)
    {
      var got := Get(c, key);
      c := got.0;
      match got.1 {
        case Unreadable => return Stopped;
        case Missing =>
          var sent := Send(c, srv, key, want, true);
          c := sent.0;
          return if sent.1 then Installed else Stopped;
        case There(obj) =>
          var same := Same(srv, obj.spec, want.spec);
          if same.None? {
            return Stopped;
          }
          if same.value {
            return Fine(obj);
          }
          var obj' := obj.(spec := Target(obj.spec, want.spec));
          var sent := Send(c, srv, key, obj', false);
          c := sent.0;
          return if sent.1 then Fine(StoredObject(srv, obj', false)) else Stopped;
      }
    }

    /** InstallVeleroCRDs, for a list of any length. */
    method InstallVeleroCRDs(srv: Server, crds: seq<Item>) returns (ok: bool)
      modifies this
      ensures (c, ok) == EnsureAll(old(c), srv, crds)
    {
      for i := 0 to |crds|
        invariant EnsureAll(old(c), srv, crds) == EnsureAll(c, srv, crds[i..])
      {
        var r := EnsureObject(srv, crds[i].key, crds[i].want);
        if r.Stopped? {
          return false;
        }
      }
      return true;
    }

    method ProvisionVelero(srv: Server, t: Wants) returns (p: Pass)
      requires t.deployment.Workload?
      modifies this
      ensures (c, p) == Provision(old(c), srv, t)
    {
      hide Ensure, MetricsOf;
      ghost var items := [BslItem(t), VslItem(t)] + if t.cr.Some? then [CrItem(t), DeploymentItem(t)] else [];
      assert if t.cr.Some? then items == FirstFour(t) else items == [BslItem(t), VslItem(t)];
      var r := EnsureObject(srv, BslItem(t).key, BslItem(t).want);
      if r.Stopped? {
        return Errored;
      }
      assert EnsureAll(old(c), srv, items) == EnsureAll(c, srv, items[1..]) && items[1..][1..] == items[2..];
      r := EnsureObject(srv, VslItem(t).key, VslItem(t).want);
      if r.Stopped? {
        return Errored;
      }
      assert EnsureAll(old(c), srv, items) == EnsureAll(c, srv, items[2..]);
      if t.cr.None? {
        return Errored;
      }
      assert items[2..][1..] == items[3..] && items[3..][1..] == [];
      r := EnsureObject(srv, CrItem(t).key, CrItem(t).want);
      if r.Stopped? {
        return Errored;
      }
      assert EnsureAll(old(c), srv, items) == EnsureAll(c, srv, items[3..]);
      ghost var c3, last := c, items[3..];
      assert EnsureAll(c3, srv, last) ==
             var (c', r') := Ensure(c3, srv, last[0].key, last[0].want);
             if r'.Stopped? then (c', false) else EnsureAll(c', srv, []);
      r := EnsureObject(srv, DeploymentItem(t).key, DeploymentItem(t).want);
      if r.Stopped? {
        return Errored;
      }
      assert EnsureAll(old(c), srv, items) == (c, true);
      var ports := MetricsServicePorts(t.deployment.containers);
      var service := Object(map["name" := DEPLOYMENT_NAME],
        Endpoint(ports, t.deployment.podLabels, t.serviceText, UNASSIGNED));
      r := EnsureObject(srv, SERVICE_KEY, service);
      match r {
        case Stopped => return Errored;
        case Installed => return Requeued;
        case Fine(found) =>
          var names: seq<string> := [];
          if found.spec.Endpoint? {
            names := PopulateEndpointsFromServicePorts(found.spec.ports);
          }
          var monitor := Object(found.labels, Monitor(found.labels, names));
          var r2 := EnsureObject(srv, MONITOR_KEY, monitor);
          return if r2.Stopped? then Errored else Complete;
      }
    }
  }
}
