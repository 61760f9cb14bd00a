/** Runs in which no outsider deletes buckets: the operator creates at most one bucket, ever. */
module OneBucket {
  import opened Options
  import opened Cloud
  import opened Phases
  import opened Controller
  import opened Safety

  function Current(w: World): Status
    requires |w.saved| > 0
  {
    w.saved[|w.saved| - 1]
  }

  /** Every name ever persisted is the current one or turned out to be somebody else's. */
  ghost predicate NamesAccounted(w: World) {
    |w.saved| > 0 &&
    forall k :: 0 <= k < |w.saved| ==>
      w.saved[k].name == "" || w.saved[k].name == Current(w).name || w.Theirs(w.saved[k].name)
  }

  /** The only bucket created so far, if any, is ours and is the one the status names. */
  ghost predicate CreationsAccounted(w: World) {
    && |w.saved| > 0
    && (forall i :: 0 <= i < |w.log| && w.log[i].Made? ==>
          w.log[i].name == Current(w).name && w.log[i].name != "" && w.Mine(w.log[i].name))
    && (forall i, j :: 0 <= i < j < |w.log| ==> !(w.log[i].Made? && w.log[j].Made?))
    && (forall i :: 0 <= i < |w.log| && w.log[i].Denied? ==> w.Theirs(w.log[i].name))
  }

  ghost predicate Single(w: World) {
    NoDeletion(w) && NamesAccounted(w) && CreationsAccounted(w)
  }

  lemma ReadsKeepSingle(w: World, w': World)
    requires Single(w) && Stays(w, w') && w'.log == w.log && Keeps(w, w')
    ensures Single(w')
  {
  }

  /** A call creates only what the current status names. */
  lemma CreatesOnlyCurrent(p: Platform, infraName: string, w: World, inst: Instance, r: Reply, i: nat)
    requires Single(w) && inst.version < |w.saved| && inst.status == w.saved[inst.version]
    requires Call(p, infraName, w, inst, r) && |w.log| <= i < |r.w.log| && r.w.log[i].Made?
    ensures inst.status.name == Current(w).name == r.w.log[i].name != ""
    ensures r.w.Mine(inst.status.name) && inst.status.name !in w.cloud
  {
    hide Move;
  }

  /** A move changes the current name only by choosing one where there was none, or by dropping one that
      is somebody else's. */
  lemma MoveChangesName(p: Platform, infraName: string, s: Status, t: Status, w: World, w': World)
    requires NoDeletion(w) && Extends(w, w') && NewEvents(w, s, w') && Move(p, infraName, s, t, w, w')
    ensures t.name == s.name || s.name == "" || (t.name == "" && w'.Theirs(s.name))
  {
    hide Witnessed, Sighted;
    if Release(p, s, t, w'.log, |w.log|) {
      var i :| |w.log| <= i < |w'.log| && w'.log[i] == Denied(s.name);
    }
  }

  lemma CurrentAfterCall(p: Platform, infraName: string, w: World, inst: Instance, r: Reply)
    requires Single(w) && inst.version < |w.saved| && inst.status == w.saved[inst.version]
    requires Call(p, infraName, w, inst, r)
    ensures |r.w.saved| > 0
    ensures Current(r.w).name == Current(w).name || Current(w).name == "" || r.w.Theirs(Current(w).name)
    ensures forall k :: |w.saved| <= k < |r.w.saved| ==>
              r.w.saved[k].name == "" || r.w.saved[k].name == Current(r.w).name || r.w.Theirs(r.w.saved[k].name)
  {
    hide Move, Keeps;
    var n, w' := |w.saved|, r.w;
    if |w'.saved| > n {
      MoveChangesName(p, infraName, inst.status, w'.saved[n], w, w');
    }
    if |w'.saved| > n + 1 {
      NewEventsRenamed(w, inst.status, w'.saved[n], w');
      MoveChangesName(p, infraName, w'.saved[n], w'.saved[n + 1], w, w');
    }
  }

  /** An unnamed status creates nothing, so the call's events suit any later status. */
  lemma NewEventsRenamed(w: World, s: Status, t: Status, w': World)
    requires w.log <= w'.log && NewEvents(w, s, w') && s.name == ""
    ensures NewEvents(w, t, w')
  {
  }

  lemma CallKeepsNames(p: Platform, infraName: string, w: World, inst: Instance, r: Reply)
    requires Single(w) && inst.version < |w.saved| && inst.status == w.saved[inst.version]
    requires Call(p, infraName, w, inst, r)
    ensures NamesAccounted(r.w)
  {
    hide Call, Move, NewEvents;
    CurrentAfterCall(p, infraName, w, inst, r);
    assert Extends(w, r.w) && Keeps(w, r.w) by { CallExtends(p, infraName, w, inst, r); }
  }

  lemma CallExtends(p: Platform, infraName: string, w: World, inst: Instance, r: Reply)
    requires Call(p, infraName, w, inst, r)
    ensures Extends(w, r.w) && (NoDeletion(w) ==> Keeps(w, r.w)) && NewEvents(w, inst.status, r.w)
  {
  }

  lemma CallKeepsCreations(p: Platform, infraName: string, w: World, inst: Instance, r: Reply)
    requires Single(w) && inst.version < |w.saved| && inst.status == w.saved[inst.version]
    requires Call(p, infraName, w, inst, r)
    ensures CreationsAccounted(r.w)
  {
    hide Call, Move, NamesAccounted;
    var w' := r.w;
    CallExtends(p, infraName, w, inst, r);
    CurrentAfterCall(p, infraName, w, inst, r);
    forall i | |w.log| <= i < |w'.log| && w'.log[i].Made?
      ensures inst.status.name == Current(w).name == w'.log[i].name != ""
      ensures w'.Mine(w'.log[i].name) && w'.log[i].name !in w.cloud
    {
      CreatesOnlyCurrent(p, infraName, w, inst, r, i);
    }
  }

  lemma CallKeepsSingle(p: Platform, infraName: string, w: World, inst: Instance, r: Reply)
    requires Single(w) && inst.version < |w.saved| && inst.status == w.saved[inst.version]
    requires Call(p, infraName, w, inst, r)
    ensures Single(r.w)
  {
    CallKeepsNames(p, infraName, w, inst, r);
    CallKeepsCreations(p, infraName, w, inst, r);
    hide Call;
    CallExtends(p, infraName, w, inst, r);
  }

  lemma ProvisioningKeepsSingle(w: World, s: Status)
    requires Single(w)
    ensures Single(w.Noted(Provisioning(s, w.clock)))
  {
  }

  lemma ReconcileKeepsSingle(w: World, infra: Infrastructure, d: DriverConfig)
    requires NewDriver(infra) == Some(d) && Single(w)
    ensures Single(ReconcileStep(w, infra).0)
  {
    hide ReconcileStep, StorageStep, Call, Move, NamesAccounted, CreationsAccounted;
    var w1, inst := ReconcileCases(w, infra, d);
    ReadsKeepSingle(w, w1);
    if ReconcileStep(w, infra).0 != w1 {
      if StorageBucketReconcileRequired(inst.status, w1.clock) {
        StorageStepIsCall(w1, inst, d);
        CallKeepsSingle(d.Platform(), d.InfraName(), w1, inst, StorageStep(w1, inst, d));
      } else {
        ProvisioningKeepsSingle(w1, inst.status);
      }
    }
  }

  lemma {:induction false} RunKeepsSingle(w: World, infra: Infrastructure, d: DriverConfig, n: nat)
    requires Init(w) && NoDeletion(w) && NewDriver(infra) == Some(d)
    ensures Single(Run(w, infra, n))
  {
    hide ReconcileStep;
    if n > 0 {
      RunKeepsSingle(w, infra, d, n - 1);
      ReconcileKeepsSingle(Run(w, infra, n - 1), infra, d);
    }
  }

  lemma ReconcileExtends(w: World, infra: Infrastructure)
    ensures Extends(w, ReconcileStep(w, infra).0)
  {
    hide ReconcileStep, StorageStep, Call;
    match NewDriver(infra)
    case None =>
      NoDriverExtends(w, infra);
    case Some(d) =>
      var w1, inst := ReconcileCases(w, infra, d);
      if ReconcileStep(w, infra).0 != w1 {
        StorageStepIsCall(w1, inst, d);
        CallExtends(d.Platform(), d.InfraName(), w1, inst, StorageStep(w1, inst, d));
      }
  }

  lemma NoDriverExtends(w: World, infra: Infrastructure)
    requires NewDriver(infra).None?
    ensures Extends(w, ReconcileStep(w, infra).0)
  {
    hide Gate;
  }

  lemma {:induction false} RunExtends(w: World, infra: Infrastructure, m: nat, n: nat)
    requires m <= n
    ensures Extends(Run(w, infra, m), Run(w, infra, n))
  {
    hide ReconcileStep;
    if m < n {
      RunExtends(w, infra, m, n - 1);
      ReconcileExtends(Run(w, infra, n - 1), infra);
    }
  }

  /** At most one creation in a whole run. From then on the bucket is ours and its name never changes. */
  lemma AtMostOneBucket(w: World, infra: Infrastructure, d: DriverConfig, m: nat, n: nat, i: nat)
    requires Init(w) && NoDeletion(w) && NewDriver(infra) == Some(d) && m <= n
    requires i < |Run(w, infra, m).log| && Run(w, infra, m).log[i].Made?
    ensures var name, w' := Run(w, infra, m).log[i].name, Run(w, infra, n);
            && |w'.saved| > 0 && Current(w').name == name && w'.Mine(name)
            && forall j :: 0 <= j < |w'.log| && w'.log[j].Made? ==> j == i
  {
    hide ReconcileStep;
    RunKeepsSingle(w, infra, d, n);
    RunExtends(w, infra, m, n);
    assert Run(w, infra, n).log[i] == Run(w, infra, m).log[i];
  }

  /** A name is given up only while somebody else holds it. */
  lemma NamesAreOnlyLeftToOthers(w: World, infra: Infrastructure, d: DriverConfig, n: nat, k: nat)
    requires Init(w) && NoDeletion(w) && NewDriver(infra) == Some(d)
    requires k < |Run(w, infra, n).saved|
    ensures var w' := Run(w, infra, n);
            w'.saved[k].name == "" || w'.saved[k].name == Current(w').name || w'.Theirs(w'.saved[k].name)
  {
    hide ReconcileStep;
    RunKeepsSingle(w, infra, d, n);
  }
}
