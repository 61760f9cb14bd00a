/** Installing Velero's objects reaches a fixed point, and failures only ever delay it. */
module ObjectConvergence {
  import opened Options
  import opened Cloud
  import opened ObjectSync

  ghost predicate Desired(c: Cluster, srv: Server, item: Item) {
    item.key in c.objects && Same(srv, c.objects[item.key].spec, item.want.spec) == Some(true)
  }

  /** Specs the operator itself builds can be compared. */
  ghost predicate Sound(srv: Server, want: Spec) {
    Honest(srv) && (want.Credentials? ==> Readable(srv, want))
  }

  /** Stored specs that stop the comparison with an error, for ever. */
  ghost predicate Unreadably(c: Cluster, srv: Server, item: Item) {
    item.key in c.objects && Same(srv, c.objects[item.key].spec, item.want.spec).None?
  }

  ghost predicate NoFaults(c: Cluster) {
    forall i: nat :: c.pos <= i ==> c.fates(i).Served?
  }

  /** Only `key` may have changed. */
  ghost predicate Only(c: Cluster, c': Cluster, key: Key) {
    && c'.fates == c.fates && c.pos <= c'.pos
    && (forall k :: k != key ==> (k in c'.objects <==> k in c.objects))
    && (forall k :: k != key && k in c.objects ==> c'.objects[k] == c.objects[k])
  }

  lemma WrittenIsSame(srv: Server, found: Spec, want: Spec)
    requires Sound(srv, want)
    ensures Same(srv, Stored(srv, want, true), want) == Some(true)
    ensures Same(srv, found, want) == Some(false) ==>
              Same(srv, Stored(srv, Target(found, want), false), want) == Some(true)
  {
  }

  /** One ensure step, whatever fails: success means desired; what was desired is left alone; anything else
      is either untouched or becomes desired; other objects are never touched. */
  lemma EnsureStep(c: Cluster, srv: Server, item: Item)
    requires Sound(srv, item.want.spec)
    ensures var (c', r) := Ensure(c, srv, item.key, item.want);
            && Only(c, c', item.key)
            && (!r.Stopped? ==> Desired(c', srv, item))
            && (Desired(c, srv, item) ==> c'.objects == c.objects && c'.writes == c.writes)
            && (c'.objects == c.objects || Desired(c', srv, item))
            && (r.Fine? ==> item.key in c.objects) && (r.Installed? ==> item.key !in c.objects)
            && (item.key in c.objects ==>
                  item.key in c'.objects && c'.objects[item.key].labels == c.objects[item.key].labels)
            && (NoFaults(c) ==> NoFaults(c') && (r.Stopped? <==> Unreadably(c, srv, item)))
  {
    hide Stored, Same, Target, Sound;
    if item.key in c.objects {
      WrittenIsSame(srv, c.objects[item.key].spec, item.want.spec);
    } else {
      WrittenIsSame(srv, item.want.spec, item.want.spec);
    }
  }

  // ---- Lists of objects ----

  ghost predicate DistinctKeys(items: seq<Item>) {
    forall i, j :: 0 <= i < j < |items| ==> items[i].key != items[j].key
  }

  ghost predicate AllSound(srv: Server, items: seq<Item>) {
    forall i :: 0 <= i < |items| ==> Sound(srv, items[i].want.spec)
  }

  ghost predicate Installs(c: Cluster, srv: Server, items: seq<Item>) {
    forall i :: 0 <= i < |items| ==> Desired(c, srv, items[i])
  }

  predicate Listed(items: seq<Item>, k: Key) {
    exists i :: 0 <= i < |items| && items[i].key == k
  }

  ghost predicate Untouched(c: Cluster, c': Cluster, k: Key) {
    (k in c'.objects <==> k in c.objects) && (k in c.objects ==> c'.objects[k] == c.objects[k])
  }

  lemma DesiredIfUntouched(c: Cluster, c': Cluster, srv: Server, item: Item)
    requires Untouched(c, c', item.key)
    ensures Desired(c', srv, item) <==> Desired(c, srv, item)
    ensures Unreadably(c', srv, item) <==> Unreadably(c, srv, item)
  {
  }

  /** The rest of a list, once its first item is dealt with. */
  lemma Rest(items: seq<Item>, srv: Server)
    requires items != [] && DistinctKeys(items) && AllSound(srv, items)
    ensures DistinctKeys(items[1..]) && AllSound(srv, items[1..]) && !Listed(items[1..], items[0].key)
    ensures forall k :: Listed(items, k) <==> k == items[0].key || Listed(items[1..], k)
  {
    assert forall i :: 0 < i < |items| ==> items[i] == items[1..][i - 1];
  }

  /** Objects not on the list are never touched. */
  lemma {:induction false} EnsureAllFrame(c: Cluster, srv: Server, items: seq<Item>)
    requires DistinctKeys(items) && AllSound(srv, items)
    ensures var c' := EnsureAll(c, srv, items).0;
            && c'.fates == c.fates && c.pos <= c'.pos
            && forall k :: !Listed(items, k) ==> Untouched(c, c', k)
    decreases |items|
  {
    if items != [] {
      hide Ensure, Desired, Unreadably, Sound, Listed;
      Rest(items, srv);
      EnsureStep(c, srv, items[0]);
      EnsureAllFrame(Ensure(c, srv, items[0].key, items[0].want).0, srv, items[1..]);
    }
  }

  /** Where a pass stopped, or |items|: before it everything is desired, the object there is untouched or
      desired, and after it everything is untouched. */
  lemma {:induction false} EnsureAllStops(c: Cluster, srv: Server, items: seq<Item>) returns (k: nat)
    requires DistinctKeys(items) && AllSound(srv, items)
    ensures var (c', ok) := EnsureAll(c, srv, items);
            && k <= |items| && (ok <==> k == |items|)
            && (forall i :: 0 <= i < k ==> Desired(c', srv, items[i]))
            && (k < |items| ==> Untouched(c, c', items[k].key) || Desired(c', srv, items[k]))
            && (forall i :: k < i < |items| ==> Untouched(c, c', items[i].key))
    decreases |items|
  {
    if items == [] {
      k := 0;
    } else {
      hide Ensure, Desired, Unreadably, Sound, Listed;
      var a, rest := items[0], items[1..];
      Rest(items, srv);
      assert forall i :: 0 < i < |items| ==> items[i] == rest[i - 1];
      EnsureStep(c, srv, a);
      var (c1, r) := Ensure(c, srv, a.key, a.want);
      k := 0;
      if !r.Stopped? {
        var k' := EnsureAllStops(c1, srv, rest);
        k := k' + 1;
        var c' := EnsureAll(c1, srv, rest).0;
        EnsureAllFrame(c1, srv, rest);
        DesiredIfUntouched(c1, c', srv, a);
        RestStops(c, c1, c', srv, items, k');
      }
    }
  }

  lemma RestStops(c: Cluster, c1: Cluster, c': Cluster, srv: Server, items: seq<Item>, k: nat)
    requires items != [] && Only(c, c1, items[0].key) && DistinctKeys(items)
    requires k <= |items[1..]|
    requires forall i :: 0 <= i < k ==> Desired(c', srv, items[1..][i])
    requires k < |items[1..]| ==> Untouched(c1, c', items[1..][k].key) || Desired(c', srv, items[1..][k])
    requires forall i :: k < i < |items[1..]| ==> Untouched(c1, c', items[1..][i].key)
    ensures forall i :: 0 < i <= k ==> Desired(c', srv, items[i])
    ensures k + 1 < |items| ==> Untouched(c, c', items[k + 1].key) || Desired(c', srv, items[k + 1])
    ensures forall i :: k + 1 < i < |items| ==> Untouched(c, c', items[i].key)
  {
    hide Desired;
    assert forall i :: 0 < i < |items| ==> items[i] == items[1..][i - 1];
  }

  /** When everything is desired nothing is written, whatever fails. */
  lemma {:induction false} EnsureAllIdle(c: Cluster, srv: Server, items: seq<Item>)
    requires AllSound(srv, items) && Installs(c, srv, items)
    ensures EnsureAll(c, srv, items).0.objects == c.objects && EnsureAll(c, srv, items).0.writes == c.writes
    decreases |items|
  {
    if items != [] {
      hide Ensure, Sound;
      EnsureStep(c, srv, items[0]);
      assert forall i :: 0 < i < |items| ==> items[i] == items[1..][i - 1];
      EnsureAllIdle(Ensure(c, srv, items[0].key, items[0].want).0, srv, items[1..]);
    }
  }

  ghost predicate NoneUnreadable(c: Cluster, srv: Server, items: seq<Item>) {
    forall i :: 0 <= i < |items| ==> !Unreadably(c, srv, items[i])
  }

  /** Without faults a pass succeeds exactly when every stored spec on the list can be compared. */
  lemma {:induction false} EnsureAllCalm(c: Cluster, srv: Server, items: seq<Item>)
    requires DistinctKeys(items) && AllSound(srv, items) && NoFaults(c)
    ensures NoFaults(EnsureAll(c, srv, items).0)
    ensures EnsureAll(c, srv, items).1 <==> NoneUnreadable(c, srv, items)
    decreases |items|
  {
    if items != [] {
      hide Ensure, Sound, Unreadably, Desired;
      Rest(items, srv);
      EnsureStep(c, srv, items[0]);
      var c1 := Ensure(c, srv, items[0].key, items[0].want).0;
      forall i | 0 < i < |items|
        ensures items[i] == items[1..][i - 1] && (Unreadably(c1, srv, items[i]) <==> Unreadably(c, srv, items[i]))
      {
        DesiredIfUntouched(c, c1, srv, items[i]);
      }
      EnsureAllCalm(c1, srv, items[1..]);
    }
  }

  /** InstallVeleroCRDs: success installs every listed CRD and touches nothing else; an error leaves a
      prefix installed, with at most the object it stopped at changed, and that one to what is wanted. */
  lemma CrdsInstalled(c: Cluster, srv: Server, crds: seq<Item>)
    requires DistinctKeys(crds) && AllSound(srv, crds)
    ensures var (c', ok) := EnsureAll(c, srv, crds);
            && (ok ==> Installs(c', srv, crds))
            && (forall k :: !Listed(crds, k) ==> Untouched(c, c', k))
            && exists n :: 0 <= n <= |crds| && (ok <==> n == |crds|) && Installs(c', srv, crds[..n])
                 && (forall i :: n < i < |crds| ==> Untouched(c, c', crds[i].key))
                 && (n < |crds| ==> Untouched(c, c', crds[n].key) || Desired(c', srv, crds[n]))
  {
    hide Desired, Sound;
    EnsureAllFrame(c, srv, crds);
    var n := EnsureAllStops(c, srv, crds);
    assert Installs(EnsureAll(c, srv, crds).0, srv, crds[..n]);
  }

  /** A second call right after a successful one writes nothing; CRD specs are compared literally, so
      without faults every call succeeds. */
  lemma CrdsSettle(c: Cluster, srv: Server, crds: seq<Item>)
    requires DistinctKeys(crds) && AllSound(srv, crds) && forall i :: 0 <= i < |crds| ==> crds[i].want.spec.Plain?
    ensures var (c', ok) := EnsureAll(c, srv, crds);
            && (NoFaults(c) ==> ok)
            && (ok ==> forall i :: 0 <= i < |crds| ==>
                  crds[i].key in c'.objects && c'.objects[crds[i].key].spec == crds[i].want.spec)
            && (ok ==>
                  var c2 := EnsureAll(c', srv, crds).0;
                  c2.objects == c'.objects && c2.writes == c'.writes)
  {
    hide EnsureAll, Sound;
    var c' := EnsureAll(c, srv, crds).0;
    if NoFaults(c) {
      EnsureAllCalm(c, srv, crds);
    }
    var n := EnsureAllStops(c, srv, crds);
    if n == |crds| {
      EnsureAllIdle(c', srv, crds);
      forall i | 0 <= i < |crds|
        ensures crds[i].key in c'.objects && c'.objects[crds[i].key].spec == crds[i].want.spec
      {
        LiteralMeans(c', srv, crds[i]);
      }
    }
  }

  // ---- provisionVelero ----

  /** Desired specs as the operator builds them, for a server that re-encodes provider specs faithfully. */
  ghost predicate Plan(srv: Server, t: Wants) {
    && Honest(srv) && t.vsl.Plain? && t.deployment.Workload?
    && t.cr.Some? && Readable(srv, t.cr.value)
  }

  function ServiceItem(t: Wants): Item
    requires t.deployment.Workload?
  {
    Item(SERVICE_KEY, ServiceObject(t))
  }

  /** The labels of a stored Service are never corrected, and the ServiceMonitor follows them. */
  function MonitorItem(c: Cluster, t: Wants): Item
    requires t.deployment.Workload?
  {
    var labels := if SERVICE_KEY in c.objects then c.objects[SERVICE_KEY].labels else ServiceObject(t).labels;
    Item(MONITOR_KEY, MonitorObject(Object(labels, ServiceObject(t).spec)))
  }

  function Six(c: Cluster, t: Wants): seq<Item>
    requires t.deployment.Workload? && t.cr.Some?
  {
    FirstFour(t) + [ServiceItem(t), MonitorItem(c, t)]
  }

  /** Which of the six objects still differ from what is wanted. */
  ghost function Differing(c: Cluster, srv: Server, t: Wants): set<nat>
    requires t.deployment.Workload? && t.cr.Some?
  {
    set i: nat | i < 6 && !Desired(c, srv, Six(c, t)[i])
  }

  lemma FoundServicePorts(srv: Server, found: Spec, want: Spec)
    requires want.Endpoint?
    ensures Same(srv, found, want) == Some(true) ==> found.Endpoint? && found.ports == want.ports
    ensures Target(found, want).Endpoint? && Target(found, want).ports == want.ports
  {
  }

  /** What the Service step hands on is the stored Service, with the wanted ports. */
  lemma ServiceFound(c: Cluster, srv: Server, t: Wants)
    requires t.deployment.Workload? && Honest(srv)
    ensures var (c', r) := Ensure(c, srv, SERVICE_KEY, ServiceObject(t));
            r.Fine? ==> && SERVICE_KEY in c.objects && r.obj.labels == c.objects[SERVICE_KEY].labels
                        && MonitorObject(r.obj) == MonitorItem(c, t).want
  {
    if SERVICE_KEY in c.objects {
      FoundServicePorts(srv, c.objects[SERVICE_KEY].spec, ServiceObject(t).spec);
    }
  }

  /** A step keeps what the ServiceMonitor should be. */
  lemma MonitorKept(c: Cluster, c': Cluster, srv: Server, t: Wants, item: Item)
    requires t.deployment.Workload? && Honest(srv)
    requires item.key != SERVICE_KEY || item == ServiceItem(t)
    requires Sound(srv, item.want.spec) && c' == Ensure(c, srv, item.key, item.want).0
    ensures MonitorItem(c', t) == MonitorItem(c, t)
  {
    hide MonitorObject;
  }

  lemma MetricsPass(c: Cluster, srv: Server, t: Wants) returns (k: nat)
    requires Plan(srv, t)
    ensures var (c', p) := ProvisionMetrics(c, srv, t);
            && MonitorItem(c', t) == MonitorItem(c, t)
            && (forall k :: k != SERVICE_KEY && k != MONITOR_KEY ==> Untouched(c, c', k))
            && 4 <= k <= 6 && (p.Complete? <==> k == 6) && (p.Requeued? ==> k == 5)
            && (if k == 4 then Untouched(c, c', SERVICE_KEY) || Desired(c', srv, ServiceItem(t))
                else Desired(c', srv, ServiceItem(t)))
            && (if k == 4 then Untouched(c, c', MONITOR_KEY)
                else if k == 5 then Untouched(c, c', MONITOR_KEY) || Desired(c', srv, MonitorItem(c, t))
                else Desired(c', srv, MonitorItem(c, t)))
            && (Desired(c, srv, ServiceItem(t)) && Desired(c, srv, MonitorItem(c, t)) ==>
                  c'.objects == c.objects && c'.writes == c.writes)
            && (NoFaults(c) ==> NoFaults(c') && p == if SERVICE_KEY in c.objects then Complete else Requeued)
  {
    hide Ensure;
    var service := ServiceItem(t);
    EnsureStep(c, srv, service);
    ServiceFound(c, srv, t);
    var (c1, r) := Ensure(c, srv, SERVICE_KEY, ServiceObject(t));
    MonitorKept(c, c1, srv, t, service);
    assert SERVICE_KEY != MONITOR_KEY;
    k := if r.Stopped? then 4 else 5;
    if r.Fine? {
      var monitor := MonitorItem(c, t);
      EnsureStep(c1, srv, monitor);
      var (c2, r2) := Ensure(c1, srv, MONITOR_KEY, monitor.want);
      MonitorKept(c1, c2, srv, t, monitor);
      DesiredIfUntouched(c1, c2, srv, service);
      k := if r2.Stopped? then 5 else 6;
    }
    DesiredIfUntouched(c, c1, srv, MonitorItem(c, t));
  }

  lemma PlanIsSound(c: Cluster, srv: Server, t: Wants)
    requires Plan(srv, t)
    ensures DistinctKeys(FirstFour(t)) && AllSound(srv, FirstFour(t))
    ensures !Listed(FirstFour(t), SERVICE_KEY) && !Listed(FirstFour(t), MONITOR_KEY)
    ensures DistinctKeys(Six(c, t))
    ensures NoneUnreadable(c, srv, FirstFour(t)) <==> !Unreadably(c, srv, CrItem(t))
  {
    hide Readable, MetricsOf;
    assert FirstFour(t)[2] == CrItem(t);
  }

  /** Where a whole pass stopped: `k` objects are desired, all those after the next are untouched, and the
      next is untouched or desired. */
  ghost predicate StoppedAt(c: Cluster, c': Cluster, srv: Server, t: Wants, k: nat)
    requires t.deployment.Workload? && t.cr.Some?
  {
    && k <= 6
    && (forall i :: 0 <= i < k ==> Desired(c', srv, Six(c, t)[i]))
    && (k < 6 ==> Untouched(c, c', Six(c, t)[k].key) || Desired(c', srv, Six(c, t)[k]))
    && (forall i :: k < i < 6 ==> Untouched(c, c', Six(c, t)[i].key))
  }

  lemma FourPass(c: Cluster, srv: Server, t: Wants) returns (k: nat)
    requires Plan(srv, t)
    ensures var (c', ok) := EnsureAll(c, srv, FirstFour(t));
            && k <= 4 && (ok <==> k == 4) && StoppedAt(c, c', srv, t, k)
            && MonitorItem(c', t) == MonitorItem(c, t)
            && (NoFaults(c) ==> NoFaults(c') && (ok <==> !Unreadably(c, srv, CrItem(t))))
            && Untouched(c, c', SERVICE_KEY) && Untouched(c, c', MONITOR_KEY)
  {
    hide EnsureAll, Desired, Unreadably, Readable, Listed, MonitorObject, ServiceObject;
    PlanIsSound(c, srv, t);
    k := EnsureAllStops(c, srv, FirstFour(t));
    EnsureAllFrame(c, srv, FirstFour(t));
    if NoFaults(c) {
      EnsureAllCalm(c, srv, FirstFour(t));
    }
    assert forall i :: 0 <= i < 4 ==> Six(c, t)[i] == FirstFour(t)[i];
    assert Six(c, t)[4].key == SERVICE_KEY && Six(c, t)[5].key == MONITOR_KEY;
  }

  /** A whole pass of provisionVelero under arbitrary failures. */
  lemma ProvisionPass(c: Cluster, srv: Server, t: Wants) returns (k: nat)
    requires Plan(srv, t)
    ensures var (c', p) := Provision(c, srv, t);
            && StoppedAt(c, c', srv, t, k) && (p.Complete? <==> k == 6)
            && Six(c', t) == Six(c, t)
            && (p.Requeued? ==> k == 5)
            && (NoFaults(c) ==>
                  && NoFaults(c')
                  && p == if Unreadably(c, srv, CrItem(t)) then Errored
                          else if SERVICE_KEY in c.objects then Complete else Requeued)
  {
    hide EnsureAll, Desired, Unreadably, Readable, Listed, MonitorObject, ServiceObject, ProvisionMetrics;
    k := FourPass(c, srv, t);
    var (c1, ok) := EnsureAll(c, srv, FirstFour(t));
    if ok {
      k := MetricsPass(c1, srv, t);
      var c' := ProvisionMetrics(c1, srv, t).0;
      forall i | 0 <= i < 4
        ensures Six(c, t)[i] == FirstFour(t)[i] && Desired(c', srv, Six(c, t)[i])
      {
        DesiredIfUntouched(c1, c', srv, Six(c, t)[i]);
      }
      assert Six(c, t)[4] == ServiceItem(t) && Six(c, t)[5] == MonitorItem(c, t);
    }
  }

  /** A run stopped by an error leaves every earlier object desired; no run ever adds a difference. */
  lemma FailuresNeverUndo(c: Cluster, srv: Server, t: Wants)
    requires Plan(srv, t)
    ensures var (c', p) := Provision(c, srv, t);
            && Differing(c', srv, t) <= Differing(c, srv, t)
            && (p.Complete? ==> Differing(c', srv, t) == {})
            && (exists k: nat :: StoppedAt(c, c', srv, t, k) && (p.Complete? <==> k == 6))
  {
    hide Provision, Desired;
    var k := ProvisionPass(c, srv, t);
    var c' := Provision(c, srv, t).0;
    forall i: nat | i < 6 && Desired(c, srv, Six(c, t)[i])
      ensures Desired(c', srv, Six(c', t)[i])
    {
      if i >= k && Untouched(c, c', Six(c, t)[i].key) {
        DesiredIfUntouched(c, c', srv, Six(c, t)[i]);
      }
    }
    assert StoppedAt(c, c', srv, t, k);
  }

  /** Once nothing differs, no run ever writes again, whatever fails. */
  lemma FixedPoint(c: Cluster, srv: Server, t: Wants)
    requires Plan(srv, t) && Differing(c, srv, t) == {}
    ensures Provision(c, srv, t).0.objects == c.objects && Provision(c, srv, t).0.writes == c.writes
    ensures NoFaults(c) ==> Provision(c, srv, t).1.Complete?
  {
    hide EnsureAll, Desired, Readable, Listed, ProvisionMetrics, Unreadably;
    PlanIsSound(c, srv, t);
    forall i: nat | i < 6
      ensures Desired(c, srv, Six(c, t)[i])
    {
      assert i !in Differing(c, srv, t);
    }
    assert forall i :: 0 <= i < 4 ==> FirstFour(t)[i] == Six(c, t)[i];
    EnsureAllIdle(c, srv, FirstFour(t));
    var c1 := EnsureAll(c, srv, FirstFour(t)).0;
    assert Six(c, t)[4] == ServiceItem(t) && Six(c, t)[5] == MonitorItem(c, t) && Six(c, t)[2] == CrItem(t);
    SameObjects(c, c1, srv, t);
    var k := MetricsPass(c1, srv, t);
    var k' := ProvisionPass(c, srv, t);
    DesiredIsReadable(c, srv, CrItem(t));
    DesiredIsReadable(c, srv, ServiceItem(t));
  }

  lemma SameObjects(c: Cluster, c1: Cluster, srv: Server, t: Wants)
    requires t.deployment.Workload? && c1.objects == c.objects
    ensures forall item :: Desired(c1, srv, item) <==> Desired(c, srv, item)
    ensures MonitorItem(c1, t) == MonitorItem(c, t)
  {
  }

  lemma DesiredIsReadable(c: Cluster, srv: Server, item: Item)
    requires Desired(c, srv, item)
    ensures !Unreadably(c, srv, item) && item.key in c.objects
  {
  }

  /** From any cluster contents two runs without faults reach the fixed point, unless the stored credentials
      request cannot be decoded: then no run ever gets past it. */
  lemma TwoPassesSuffice(c: Cluster, srv: Server, t: Wants)
    requires Plan(srv, t) && NoFaults(c)
    ensures var c2 := Provision(Provision(c, srv, t).0, srv, t).0;
            Differing(c2, srv, t) == {} <==> !Unreadably(c, srv, CrItem(t))
  {
    hide Provision, Desired, Unreadably, Readable;
    var c1 := Provision(c, srv, t).0;
    var k := ProvisionPass(c, srv, t);
    var k1 := ProvisionPass(c1, srv, t);
    FailuresNeverUndo(c1, srv, t);
    if Unreadably(c, srv, CrItem(t)) {
      UnreadableStays(c, srv, t);
      UnreadableStays(c1, srv, t);
      var c2 := Provision(c1, srv, t).0;
      DesiredOrUnreadable(c2, srv, CrItem(t));
      assert Six(c2, t)[2] == CrItem(t) && 2 in Differing(c2, srv, t);
    } else {
      assert k >= 5;
      assert Six(c, t)[2] == CrItem(t) && Six(c, t)[4] == ServiceItem(t);
      DesiredIsReadable(c1, srv, CrItem(t));
      DesiredIsReadable(c1, srv, ServiceItem(t));
    }
  }

  lemma DesiredOrUnreadable(c: Cluster, srv: Server, item: Item)
    ensures !(Desired(c, srv, item) && Unreadably(c, srv, item))
  {
  }

  /** An undecodable stored credentials request stops every run and survives it, whatever fails. */
  lemma UnreadableStays(c: Cluster, srv: Server, t: Wants)
    requires Plan(srv, t) && Unreadably(c, srv, CrItem(t))
    ensures Provision(c, srv, t).1.Errored? && Unreadably(Provision(c, srv, t).0, srv, CrItem(t))
  {
    hide EnsureAll, Desired, Readable, Listed, ProvisionMetrics;
    PlanIsSound(c, srv, t);
    var items := FirstFour(t);
    UnreadableBlocks(c, srv, items, 2);
  }

  lemma {:induction false} UnreadableBlocks(c: Cluster, srv: Server, items: seq<Item>, k: nat)
    requires DistinctKeys(items) && AllSound(srv, items) && k < |items| && Unreadably(c, srv, items[k])
    ensures var (c', ok) := EnsureAll(c, srv, items);
            !ok && Untouched(c, c', items[k].key) && Unreadably(c', srv, items[k])
    decreases |items|
  {
    hide Sound, Listed;
    EnsureStep(c, srv, items[0]);
    Rest(items, srv);
    if k > 0 {
      hide Ensure;
      var c1 := Ensure(c, srv, items[0].key, items[0].want).0;
      DesiredIfUntouched(c, c1, srv, items[k]);
      assert items[1..][k - 1] == items[k];
      UnreadableBlocks(c1, srv, items[1..], k - 1);
    }
  }

  // ---- Services and monitors ----

  ghost predicate SameFields(c: Cluster, c': Cluster) {
    SERVICE_KEY in c.objects && c.objects[SERVICE_KEY].spec.Endpoint? ==>
      && SERVICE_KEY in c'.objects && c'.objects[SERVICE_KEY].spec.Endpoint?
      && c'.objects[SERVICE_KEY].spec.fields == c.objects[SERVICE_KEY].spec.fields
      && c'.objects[SERVICE_KEY].labels == c.objects[SERVICE_KEY].labels
  }

  lemma ServiceStepKeepsFields(c: Cluster, srv: Server, t: Wants)
    requires t.deployment.Workload? && Honest(srv)
    ensures SameFields(c, Ensure(c, srv, SERVICE_KEY, ServiceObject(t)).0)
  {
    hide MetricsOf;
  }

  /** Whatever a run does, a stored Service keeps its five cluster-assigned fields and its labels. */
  lemma AssignedFieldsSurvive(c: Cluster, srv: Server, t: Wants)
    requires Plan(srv, t)
    ensures SameFields(c, Provision(c, srv, t).0)
  {
    hide EnsureAll, Ensure, Readable, Listed, MetricsOf, PortNames, ServiceObject, MonitorObject;
    PlanIsSound(c, srv, t);
    EnsureAllFrame(c, srv, FirstFour(t));
    var c1 := EnsureAll(c, srv, FirstFour(t)).0;
    ServiceStepKeepsFields(c1, srv, t);
    var (c2, r) := Ensure(c1, srv, SERVICE_KEY, ServiceObject(t));
    if r.Fine? {
      assert MonitorObject(r.obj).spec.Monitor? by { MonitorKind(r.obj); }
      EnsureStep(c2, srv, Item(MONITOR_KEY, MonitorObject(r.obj)));
    }
    assert SERVICE_KEY != MONITOR_KEY;
  }

  lemma MonitorKind(service: Object)
    ensures MonitorObject(service).spec.Monitor?
  {
  }

  /** The ports whose name contains "metrics", in order. */
  function MetricsPorts(ports: seq<Port>): seq<Port> {
    if ports == [] then []
    else
      var rest := MetricsPorts(ports[..|ports| - 1]);
      var last := ports[|ports| - 1];
      if Contains(last.name, "metrics") then rest + [last] else rest
  }

  function Names(ports: seq<Port>): seq<string> { seq(|ports|, i requires 0 <= i < |ports| => ports[i].name) }

  /** Each metrics port is served under its own name, protocol and number, and targets that number. */
  function ServedAs(ports: seq<Port>): seq<ServicePort> {
    seq(|ports|, i requires 0 <= i < |ports| => ServicePort(ports[i], ports[i].number))
  }

  lemma {:induction false} MetricsOfMeans(ports: seq<Port>)
    ensures MetricsOf(ports) == ServedAs(MetricsPorts(ports))
    ensures PortNames(MetricsOf(ports)) == Names(MetricsPorts(ports))
  {
    hide Contains;
    if ports != [] {
      var n := |ports| - 1;
      assert ports == ports[..n] + [ports[n]];
      MetricsOfConcat(ports[..n], [ports[n]]);
      MetricsOfMeans(ports[..n]);
    }
  }

  /** After an error-free run that does not ask for a requeue, the ServiceMonitor's endpoints are the names
      of the Deployment's container ports that contain "metrics", in order. */
  lemma MonitorFollowsDeployment(c: Cluster, srv: Server, t: Wants)
    requires Plan(srv, t) && Provision(c, srv, t).1.Complete?
    ensures var c' := Provision(c, srv, t).0;
            && MONITOR_KEY in c'.objects && c'.objects[MONITOR_KEY].spec.Monitor?
            && c'.objects[MONITOR_KEY].spec.endpoints == Names(MetricsPorts(Flat(t.deployment.containers)))
  {
    hide Provision, Readable, Contains;
    var k := ProvisionPass(c, srv, t);
    assert Six(c, t)[5] == MonitorItem(c, t);
    MetricsOfMeans(Flat(t.deployment.containers));
  }

  // ---- What being desired means ----

  /** The stored credentials request asks for what is wanted, up to the encoding of the provider spec. */
  ghost predicate SameCredentials(srv: Server, found: Spec, want: Option<Spec>) {
    && want.Some? && want.value.Credentials? && found.Credentials?
    && want.value.provider.Some? && found.provider.Some?
    && srv.decode(found.provider.value).Some?
    && srv.decode(found.provider.value) == srv.decode(want.value.provider.value)
    && found.rest == want.value.rest
  }

  /** The Service exposes the Deployment's metrics ports on its pods. */
  ghost predicate Serves(found: Spec, x: Design)
    requires x.deployment.Workload?
  {
    && found.Endpoint? && found.ports == ServedAs(MetricsPorts(Flat(x.deployment.containers)))
    && found.selector == x.deployment.podLabels && found.text == x.serviceText
  }

  /** All six objects exist and say what they should for the bucket. */
  ghost predicate InPlace(c: Cluster, srv: Server, x: Design, bucket: string)
    requires x.deployment.Workload?
  {
    var o := c.objects;
    var bsl, vsl := Key(BackupStorageLocation, "default"), Key(VolumeSnapshotLocation, "default");
    var cr, deployment := Key(CredentialsRequest, "velero-iam-credentials"), Key(Deployment, "velero");
    var service, monitor := Key(Service, "velero" + "-metrics"), Key(ServiceMonitor, "velero" + "-metrics");
    && bsl in o && o[bsl].spec == Location(bucket, x.locationText)
    && vsl in o && o[vsl].spec == x.vsl
    && cr in o && SameCredentials(srv, o[cr].spec, x.cr(bucket))
    && deployment in o && o[deployment].spec == x.deployment
    && service in o && Serves(o[service].spec, x)
    && monitor in o
    && o[monitor].spec == Monitor(o[service].labels, Names(MetricsPorts(Flat(x.deployment.containers))))
  }

  lemma LiteralMeans(c: Cluster, srv: Server, item: Item)
    requires !item.want.spec.Credentials? && !item.want.spec.Endpoint?
    ensures Desired(c, srv, item) <==> item.key in c.objects && c.objects[item.key].spec == item.want.spec
  {
  }

  lemma CredentialsMean(c: Cluster, srv: Server, item: Item)
    requires Readable(srv, item.want.spec)
    ensures Desired(c, srv, item) <==>
            item.key in c.objects && SameCredentials(srv, c.objects[item.key].spec, Some(item.want.spec))
  {
  }

  lemma ServiceMeans(c: Cluster, srv: Server, x: Design, bucket: string)
    requires x.deployment.Workload?
    ensures Desired(c, srv, ServiceItem(x.For(bucket))) <==>
            SERVICE_KEY in c.objects && Serves(c.objects[SERVICE_KEY].spec, x)
  {
    MetricsOfMeans(Flat(x.deployment.containers));
    hide MetricsOf, MetricsPorts;
  }

  /** No object differs if and only if all are in place. */
  lemma DesiredMeans(c: Cluster, srv: Server, x: Design, bucket: string)
    requires Plan(srv, x.For(bucket))
    ensures Differing(c, srv, x.For(bucket)) == {} <==> InPlace(c, srv, x, bucket)
  {
    var t := x.For(bucket);
    LiteralMeans(c, srv, BslItem(t));
    LiteralMeans(c, srv, VslItem(t));
    LiteralMeans(c, srv, DeploymentItem(t));
    LiteralMeans(c, srv, MonitorItem(c, t));
    CredentialsMean(c, srv, CrItem(t));
    ServiceMeans(c, srv, x, bucket);
    MetricsOfMeans(Flat(x.deployment.containers));
    DifferingIsNone(c, srv, t);
    hide Desired, Differing, MetricsOf, MetricsPorts, Flat, SameCredentials, Serves;
  }

  lemma DifferingIsNone(c: Cluster, srv: Server, t: Wants)
    requires t.deployment.Workload? && t.cr.Some?
    ensures Differing(c, srv, t) == {} <==>
            && Desired(c, srv, BslItem(t)) && Desired(c, srv, VslItem(t)) && Desired(c, srv, CrItem(t))
            && Desired(c, srv, DeploymentItem(t)) && Desired(c, srv, ServiceItem(t))
            && Desired(c, srv, MonitorItem(c, t))
  {
    hide Desired, MonitorItem, ServiceItem;
    var six := Six(c, t);
    assert six == [BslItem(t), VslItem(t), CrItem(t), DeploymentItem(t), ServiceItem(t), MonitorItem(c, t)];
    assert forall i: nat :: i < 6 ==> (i in Differing(c, srv, t) <==> !Desired(c, srv, six[i]));
    if Differing(c, srv, t) == {} {
      assert 0 !in Differing(c, srv, t) && 1 !in Differing(c, srv, t) && 2 !in Differing(c, srv, t);
      assert 3 !in Differing(c, srv, t) && 4 !in Differing(c, srv, t) && 5 !in Differing(c, srv, t);
    }
  }

  /** A stored credentials request that cannot be compared with any. */
  ghost predicate Blocked(c: Cluster, srv: Server) {
    var key := Key(CredentialsRequest, "velero-iam-credentials");
    && key in c.objects && c.objects[key].spec.Credentials?
    && (c.objects[key].spec.provider.None? || srv.decode(c.objects[key].spec.provider.value).None?)
  }

  lemma BlockedIsUnreadable(c: Cluster, srv: Server, t: Wants)
    requires Plan(srv, t)
    ensures Blocked(c, srv) <==> Unreadably(c, srv, CrItem(t))
  {
  }

  /** From any cluster contents two runs without faults put all six objects in place, if and only if the stored
      credentials request can be compared; after that no run writes anything, whatever fails. */
  lemma TwoPassesInstall(c: Cluster, srv: Server, x: Design, bucket: string)
    requires Plan(srv, x.For(bucket)) && NoFaults(c)
    ensures var c2 := Provision(Provision(c, srv, x.For(bucket)).0, srv, x.For(bucket)).0;
            InPlace(c2, srv, x, bucket) <==> !Blocked(c, srv)
  {
    hide Provision, InPlace, Blocked, Readable, Differing, Unreadably;
    var t := x.For(bucket);
    TwoPassesSuffice(c, srv, t);
    BlockedIsUnreadable(c, srv, t);
    DesiredMeans(Provision(Provision(c, srv, t).0, srv, t).0, srv, x, bucket);
  }

  lemma InPlaceIsFixed(c: Cluster, srv: Server, x: Design, bucket: string)
    requires Plan(srv, x.For(bucket)) && InPlace(c, srv, x, bucket)
    ensures var c' := Provision(c, srv, x.For(bucket)).0;
            c'.objects == c.objects && c'.writes == c.writes
  {
    hide Provision, InPlace, Readable, Differing;
    DesiredMeans(c, srv, x, bucket);
    FixedPoint(c, srv, x.For(bucket));
  }

  /** A Service that a run creates is labelled with the Deployment's name. */
  lemma CreatedServiceIsLabelled(c: Cluster, srv: Server, t: Wants)
    requires Plan(srv, t) && SERVICE_KEY !in c.objects
    ensures var c' := Provision(c, srv, t).0;
            SERVICE_KEY in c'.objects ==> c'.objects[SERVICE_KEY].labels == map["name" := "velero"]
  {
    hide EnsureAll, Readable, Listed, MetricsOf, PortNames, MonitorObject, Same, Stored;
    PlanIsSound(c, srv, t);
    EnsureAllFrame(c, srv, FirstFour(t));
    assert SERVICE_KEY != MONITOR_KEY;
  }

  /** A monitor that a run creates is labelled like the Service it watches. */
  lemma CreatedMonitorIsLabelled(c: Cluster, srv: Server, t: Wants)
    requires Plan(srv, t) && MONITOR_KEY !in c.objects
    ensures var c' := Provision(c, srv, t).0;
            MONITOR_KEY in c'.objects ==>
              SERVICE_KEY in c'.objects && c'.objects[MONITOR_KEY].labels == c'.objects[SERVICE_KEY].labels
  {
    hide EnsureAll, Readable, Listed, MetricsOf, PortNames, Same, Stored, ServiceObject, Target;
    PlanIsSound(c, srv, t);
    EnsureAllFrame(c, srv, FirstFour(t));
    assert SERVICE_KEY != MONITOR_KEY;
  }

  // ---- The order of things ----

  /** In which order a run deals with the objects. */
  function Rank(kind: Kind): nat {
    match kind
    case BackupStorageLocation => 0
    case VolumeSnapshotLocation => 1
    case CredentialsRequest => 2
    case Deployment => 3
    case Service => 4
    case ServiceMonitor => 5
    case CustomResourceDefinition => 6
  }

  /** Everything written from `c` to `c'` is of ranks from `lo` to `hi`, at most once each, in order. */
  ghost predicate InOrder(c: Cluster, c': Cluster, lo: nat, hi: nat) {
    && c.writes <= c'.writes
    && (forall i :: |c.writes| <= i < |c'.writes| ==> lo <= Rank(c'.writes[i].key.kind) <= hi)
    && (forall i, j :: |c.writes| <= i < j < |c'.writes| ==>
          Rank(c'.writes[i].key.kind) < Rank(c'.writes[j].key.kind))
  }

  lemma EnsureInOrder(c: Cluster, srv: Server, key: Key, want: Object)
    ensures InOrder(c, Ensure(c, srv, key, want).0, Rank(key.kind), Rank(key.kind))
  {
    hide Same, Stored, Target;
  }

  lemma OrderAdds(c: Cluster, c1: Cluster, c': Cluster, lo: nat, mid: nat, mid': nat, hi: nat)
    requires InOrder(c, c1, lo, mid) && InOrder(c1, c', mid', hi) && lo <= mid < mid' <= hi
    ensures InOrder(c, c', lo, hi)
  {
  }

  lemma OrderWidens(c: Cluster, c': Cluster, lo: nat, mid: nat, hi: nat)
    requires InOrder(c, c', lo, mid) && mid <= hi
    ensures InOrder(c, c', lo, hi)
  {
  }

  lemma {:induction false} EnsureAllInOrder(c: Cluster, srv: Server, items: seq<Item>, lo: nat, hi: nat)
    requires forall i :: 0 <= i < |items| ==> lo <= Rank(items[i].key.kind) <= hi
    requires forall i, j :: 0 <= i < j < |items| ==> Rank(items[i].key.kind) < Rank(items[j].key.kind)
    ensures InOrder(c, EnsureAll(c, srv, items).0, lo, hi)
    decreases |items|
  {
    if items != [] {
      hide Ensure, InOrder, Rank;
      var c1 := Ensure(c, srv, items[0].key, items[0].want).0;
      EnsureInOrder(c, srv, items[0].key, items[0].want);
      OrderFrom(c, c1, lo, Rank(items[0].key.kind), hi);
      if |items| > 1 {
        assert forall i :: 0 < i < |items| ==> items[i] == items[1..][i - 1];
        EnsureAllInOrder(c1, srv, items[1..], Rank(items[0].key.kind) + 1, hi);
        OrderFrom(c, c1, lo, Rank(items[0].key.kind), Rank(items[0].key.kind));
        var rank := Rank(items[0].key.kind);
        OrderAdds(c, c1, EnsureAll(c1, srv, items[1..]).0, lo, rank, rank + 1, hi);
      } else {
        assert EnsureAll(c1, srv, items[1..]).0 == c1;
      }
    } else {
      assert InOrder(c, c, lo, hi);
    }
  }

  lemma OrderFrom(c: Cluster, c': Cluster, lo: nat, k: nat, hi: nat)
    requires InOrder(c, c', k, k) && lo <= k <= hi
    ensures InOrder(c, c', lo, hi)
  {
  }

  /** A run writes the backup location first, then the snapshot location, the credentials request, the
      Deployment, the Service and its monitor, each at most once, whatever fails. */
  lemma WrittenInOrder(c: Cluster, srv: Server, t: Wants)
    requires t.deployment.Workload?
    ensures InOrder(c, Provision(c, srv, t).0, 0, 5)
    ensures t.cr.None? ==> InOrder(c, Provision(c, srv, t).0, 0, 1) && Provision(c, srv, t).1.Errored?
  {
    hide Ensure, EnsureAll, InOrder, MonitorObject, ServiceObject;
    if t.cr.None? {
      EnsureAllInOrder(c, srv, [BslItem(t), VslItem(t)], 0, 1);
      OrderWidens(c, Provision(c, srv, t).0, 0, 1, 5);
    } else {
      EnsureAllInOrder(c, srv, FirstFour(t), 0, 3);
      var c1 := EnsureAll(c, srv, FirstFour(t)).0;
      OrderWidens(c, c1, 0, 3, 5);
      EnsureInOrder(c1, srv, SERVICE_KEY, ServiceObject(t));
      var (c2, r) := Ensure(c1, srv, SERVICE_KEY, ServiceObject(t));
      OrderAdds(c, c1, c2, 0, 3, 4, 4);
      OrderWidens(c, c2, 0, 4, 5);
      if r.Fine? {
        EnsureInOrder(c2, srv, MONITOR_KEY, MonitorObject(r.obj));
        OrderAdds(c, c2, Ensure(c2, srv, MONITOR_KEY, MonitorObject(r.obj)).0, 0, 4, 5, 5);
      }
    }
  }

  // ---- Servers that rewrite more ----

  /** What is stored of the wanted spec compares as wanted. */
  ghost predicate Kept(srv: Server, want: Spec) {
    Same(srv, Stored(srv, want, false), want) == Some(true)
  }

  /** The object is not as wanted, and overwriting it is impossible or does not help. */
  ghost predicate Hopeless(c: Cluster, srv: Server, item: Item) {
    !Desired(c, srv, item) && (!Kept(srv, item.want.spec) || Unreadably(c, srv, item))
  }

  /** One ensure step against any server, for anything but a Service. */
  lemma AnyEnsureStep(c: Cluster, srv: Server, item: Item)
    requires !item.want.spec.Endpoint?
    ensures var (c', r) := Ensure(c, srv, item.key, item.want);
            && Only(c, c', item.key)
            && (Hopeless(c, srv, item) ==> Hopeless(c', srv, item))
            && (Desired(c, srv, item) || Unreadably(c, srv, item) ==> c'.objects == c.objects && c'.writes == c.writes)
            && |c.writes| <= |c'.writes|
            && (NoFaults(c) ==>
                  && NoFaults(c') && (r.Stopped? <==> Unreadably(c, srv, item))
                  && (!r.Stopped? && !Desired(c, srv, item) ==> |c'.writes| > |c.writes|)
                  && (!Hopeless(c, srv, item) ==> Desired(c', srv, item)))
  {
    hide Stored, Same;
    CreatedAlike(srv, item.want.spec);
  }

  lemma CreatedAlike(srv: Server, want: Spec)
    requires !want.Endpoint?
    ensures Stored(srv, want, true) == Stored(srv, want, false)
  {
  }

  ghost predicate NoServices(items: seq<Item>) {
    forall i :: 0 <= i < |items| ==> !items[i].want.spec.Endpoint?
  }

  ghost predicate NoneHopeless(c: Cluster, srv: Server, items: seq<Item>) {
    forall i :: 0 <= i < |items| ==> !Hopeless(c, srv, items[i])
  }

  lemma HopelessIfUntouched(c: Cluster, c': Cluster, srv: Server, item: Item)
    requires Untouched(c, c', item.key)
    ensures Hopeless(c', srv, item) <==> Hopeless(c, srv, item)
    ensures Desired(c', srv, item) <==> Desired(c, srv, item)
    ensures Unreadably(c', srv, item) <==> Unreadably(c, srv, item)
  {
  }

  lemma RestOfAny(items: seq<Item>)
    requires items != [] && DistinctKeys(items) && NoServices(items)
    ensures DistinctKeys(items[1..]) && NoServices(items[1..]) && !Listed(items[1..], items[0].key)
    ensures forall k :: Listed(items, k) <==> k == items[0].key || Listed(items[1..], k)
    ensures forall i :: 0 < i < |items| ==> items[i] == items[1..][i - 1] && items[i].key != items[0].key
  {
    assert forall i :: 0 < i < |items| ==> items[i] == items[1..][i - 1];
  }

  lemma {:induction false} AnyFrame(c: Cluster, srv: Server, items: seq<Item>)
    requires DistinctKeys(items) && NoServices(items)
    ensures forall k :: !Listed(items, k) ==> Untouched(c, EnsureAll(c, srv, items).0, k)
    ensures |c.writes| <= |EnsureAll(c, srv, items).0.writes|
    decreases |items|
  {
    if items != [] {
      hide Ensure, Hopeless, Desired, Unreadably, Listed;
      RestOfAny(items);
      AnyEnsureStep(c, srv, items[0]);
      AnyFrame(Ensure(c, srv, items[0].key, items[0].want).0, srv, items[1..]);
    }
  }

  /** A hopeless object stays hopeless, whatever fails. */
  lemma {:induction false} HopelessStays(c: Cluster, srv: Server, items: seq<Item>, k: nat)
    requires DistinctKeys(items) && NoServices(items) && k < |items| && Hopeless(c, srv, items[k])
    ensures Hopeless(EnsureAll(c, srv, items).0, srv, items[k])
    decreases |items|
  {
    hide Ensure, Hopeless, Desired, Unreadably, Listed;
    RestOfAny(items);
    AnyEnsureStep(c, srv, items[0]);
    var (c1, r) := Ensure(c, srv, items[0].key, items[0].want);
    var c' := EnsureAll(c1, srv, items[1..]).0;
    AnyFrame(c1, srv, items[1..]);
    if k == 0 {
      HopelessIfUntouched(c1, c', srv, items[0]);
    } else {
      HopelessIfUntouched(c, c1, srv, items[k]);
      HopelessStays(c1, srv, items[1..], k - 1);
    }
  }

  /** Without faults and hopeless objects one pass does it. */
  lemma {:induction false} HopefulInstalls(c: Cluster, srv: Server, items: seq<Item>)
    requires DistinctKeys(items) && NoServices(items) && NoFaults(c) && NoneHopeless(c, srv, items)
    ensures Installs(EnsureAll(c, srv, items).0, srv, items) && NoFaults(EnsureAll(c, srv, items).0)
    decreases |items|
  {
    if items != [] {
      assert !Unreadably(c, srv, items[0]) by { NotHopelessIsReadable(c, srv, items[0]); }
      hide Ensure, Hopeless, Desired, Unreadably, Listed;
      RestOfAny(items);
      AnyEnsureStep(c, srv, items[0]);
      var c1 := Ensure(c, srv, items[0].key, items[0].want).0;
      forall i | 0 < i < |items| ensures !Hopeless(c1, srv, items[i]) {
        HopelessIfUntouched(c, c1, srv, items[i]);
      }
      HopefulInstalls(c1, srv, items[1..]);
      AnyFrame(c1, srv, items[1..]);
      HopelessIfUntouched(c1, EnsureAll(c1, srv, items[1..]).0, srv, items[0]);
    }
  }

  lemma NotHopelessIsReadable(c: Cluster, srv: Server, item: Item)
    requires !Hopeless(c, srv, item)
    ensures !Unreadably(c, srv, item)
  {
  }

  function Passes(c: Cluster, srv: Server, items: seq<Item>, n: nat): Cluster {
    if n == 0 then c else EnsureAll(Passes(c, srv, items, n - 1), srv, items).0
  }

  lemma {:induction false} PassesSettle(c: Cluster, srv: Server, items: seq<Item>, n: nat)
    requires DistinctKeys(items) && NoServices(items) && NoFaults(c) && NoneHopeless(c, srv, items)
    ensures NoneHopeless(Passes(c, srv, items, n), srv, items) && NoFaults(Passes(c, srv, items, n))
    ensures n > 0 ==> Installs(Passes(c, srv, items, n), srv, items)
  {
    if n > 0 {
      PassesSettle(c, srv, items, n - 1);
      HopefulInstalls(Passes(c, srv, items, n - 1), srv, items);
    }
  }

  lemma {:induction false} PassesStayHopeless(c: Cluster, srv: Server, items: seq<Item>, k: nat, n: nat)
    requires DistinctKeys(items) && NoServices(items) && k < |items| && Hopeless(c, srv, items[k])
    ensures Hopeless(Passes(c, srv, items, n), srv, items[k])
  {
    hide Hopeless;
    if n > 0 {
      PassesStayHopeless(c, srv, items, k, n - 1);
      HopelessStays(Passes(c, srv, items, n - 1), srv, items, k);
    }
  }

  /** Whatever the API server makes of the specs it is given: any number of passes without faults reaches the
      fixed point if and only if every object is as wanted from the start, or is comparable and what the
      server stores of the wanted spec compares as wanted. */
  lemma RewritingExactly(c: Cluster, srv: Server, items: seq<Item>, n: nat)
    requires DistinctKeys(items) && NoServices(items) && NoFaults(c) && n > 0
    ensures Installs(Passes(c, srv, items, n), srv, items) <==>
            forall i :: 0 <= i < |items| ==>
              || Desired(c, srv, items[i])
              || (Kept(srv, items[i].want.spec) && !Unreadably(c, srv, items[i]))
  {
    hide Passes, Desired, Unreadably, Kept;
    if NoneHopeless(c, srv, items) {
      PassesSettle(c, srv, items, n);
    } else {
      var k :| 0 <= k < |items| && Hopeless(c, srv, items[k]);
      PassesStayHopeless(c, srv, items, k, n);
    }
  }

  /** As long as every object can be compared, a pass without faults writes nothing if and only if all are as
      wanted: a server that keeps changing a spec is written to on every pass. */
  lemma {:induction false} WritesUnlessInstalled(c: Cluster, srv: Server, items: seq<Item>)
    requires DistinctKeys(items) && NoServices(items) && NoFaults(c) && NoneUnreadable(c, srv, items)
    ensures |EnsureAll(c, srv, items).0.writes| == |c.writes| <==> Installs(c, srv, items)
    decreases |items|
  {
    if items != [] {
      hide Ensure, Hopeless, Desired, Unreadably, Listed;
      RestOfAny(items);
      AnyEnsureStep(c, srv, items[0]);
      var c1 := Ensure(c, srv, items[0].key, items[0].want).0;
      forall i | 0 < i < |items|
        ensures Unreadably(c1, srv, items[i]) <==> Unreadably(c, srv, items[i])
        ensures Desired(c1, srv, items[i]) <==> Desired(c, srv, items[i])
      {
        HopelessIfUntouched(c, c1, srv, items[i]);
      }
      WritesUnlessInstalled(c1, srv, items[1..]);
      AnyFrame(c1, srv, items[1..]);
    }
  }
}
