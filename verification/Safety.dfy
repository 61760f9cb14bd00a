/** What holds in every run of the operator: any failures at any calls, any lag in its cached reads, any
    outside changes to buckets, any passing of time; only the status itself has no other writer. */
module Safety {
  import opened Options
  import opened Cloud
  import opened Phases
  import opened Controller
  import S3
  import Gcs

  const UNSET := Status("", false, None)

  /** A custom resource that was just created. */
  ghost predicate Init(w: World) {
    w.saved == [UNSET] && w.log == []
  }

  ghost predicate Done(d: DriverConfig, s: Status, log: seq<Event>) {
    Witnessed(d.Platform(), d.InfraName(), s, log)
  }

  /** A complete pass, recorded by the status Velero is provisioned for at `i`, was over by then, and its
      last setting was acknowledged at most 60 minutes before. */
  ghost predicate PassWithin(d: DriverConfig, log: seq<Event>, i: nat, b: nat, e: nat)
    requires i < |log| && log[i].Provisioning?
  {
    && FullSyncAt(d.Platform(), d.InfraName(), log[i].status, log, b, e) && e <= i
    && var seg := log[b..e];
    seg[|seg| - 1].at <= log[i].at <= seg[|seg| - 2].at + 60 * 60
  }

  ghost predicate JustifiedAt(d: DriverConfig, log: seq<Event>, i: nat)
    requires i < |log| && log[i].Provisioning?
  {
    exists b: nat, e: nat :: PassWithin(d, log, i, b, e)
  }

  /** The bucket created at `i` had its name persisted before, as not yet provisioned. */
  ghost predicate NamedBefore(log: seq<Event>, i: nat)
    requires i < |log| && log[i].Made?
  {
    exists s: Status :: Recorded(s, log[..i]) && s.name == log[i].name && s.name != "" && !s.provisioned
  }

  ghost predicate GoodLog(d: DriverConfig, log: seq<Event>) {
    forall i :: 0 <= i < |log| ==>
      && (log[i].Provisioning? ==> JustifiedAt(d, log, i))
      && (log[i].Made? ==> NamedBefore(log, i))
  }

  /** A status follows another by one of the machine's moves. */
  ghost predicate Follows(d: DriverConfig, s: Status, t: Status, log: seq<Event>) {
    || Propose(s, t, log, 0) || Recover(s, t, log, 0) || Lose(s, t, log, 0)
    || (s.name != "" && t.name == s.name && Done(d, t, log))
    || Release(d.Platform(), s, t, log, 0)
  }

  /** No event is dated in the future. */
  ghost predicate Dated(w: World) {
    forall i :: 0 <= i < |w.log| && w.log[i].Timed() ==> w.log[i].at <= w.clock
  }

  /** Every persisted status is stale or is the record of a complete pass, and each follows the one before. */
  ghost predicate Inv(d: DriverConfig, w: World) {
    && |w.saved| > 0 && w.saved[0] == UNSET
    && (forall k :: 0 <= k < |w.saved| ==> Stale(w.saved[k], w.clock) || Done(d, w.saved[k], w.log))
    && (forall k :: 0 < k < |w.saved| ==> Recorded(w.saved[k], w.log))
    && (forall k :: 0 < k < |w.saved| ==> Follows(d, w.saved[k - 1], w.saved[k], w.log))
    && GoodLog(d, w.log) && Dated(w)
  }

  lemma DoneLasts(d: DriverConfig, s: Status, log: seq<Event>, log': seq<Event>)
    requires log <= log'
    ensures Done(d, s, log) ==> Done(d, s, log')
  {
    if Done(d, s, log) {
      WitnessLasts(d.Platform(), d.InfraName(), s, log, log');
    }
  }

  /** Old entries stay good when the log grows, so only new ones need an argument. */
  lemma GoodLogGrows(d: DriverConfig, log: seq<Event>, log': seq<Event>)
    requires GoodLog(d, log) && log <= log'
    requires forall i :: |log| <= i < |log'| ==>
               && (log'[i].Provisioning? ==> JustifiedAt(d, log', i))
               && (log'[i].Made? ==> NamedBefore(log', i))
    ensures GoodLog(d, log')
  {
    forall i | 0 <= i < |log|
      ensures log'[i].Provisioning? ==> JustifiedAt(d, log', i)
      ensures log'[i].Made? ==> NamedBefore(log', i)
    {
      assert log'[i] == log[i] && log'[..i] == log[..i];
      if log[i].Provisioning? {
        var b: nat, e: nat :| PassWithin(d, log, i, b, e);
        assert log'[b..e] == log[b..e];
        assert PassWithin(d, log', i, b, e);
      }
    }
  }

  lemma PassingTimeKeepsInv(d: DriverConfig, w: World, w': World)
    requires Inv(d, w) && w'.saved == w.saved && w'.log == w.log && w.clock <= w'.clock
    ensures Inv(d, w')
  {
  }

  lemma FullSyncEnds(p: Platform, infraName: string, s: Status, seg: seq<Event>)
    requires FullSync(p, infraName, s, seg)
    ensures s.lastSync.Some? && |seg| >= 3 && seg[|seg| - 1].Timed()
    ensures seg[|seg| - 2].Timed() && seg[|seg| - 2].at == s.lastSync.value
  {
  }

  /** A fresh status is provisioned for within the period of the pass that it records. */
  lemma JustNow(d: DriverConfig, w: World, s: Status)
    requires Done(d, s, w.log) && Dated(w) && !StorageBucketReconcileRequired(s, w.clock)
    ensures JustifiedAt(d, w.log + [Provisioning(s, w.clock)], |w.log|)
  {
    hide FullSync;
    var log := w.log + [Provisioning(s, w.clock)];
    var b: nat, e: nat :| FullSyncAt(d.Platform(), d.InfraName(), s, w.log, b, e);
    var seg := w.log[b..e];
    FullSyncEnds(d.Platform(), d.InfraName(), s, seg);
    assert log[b..e] == seg;
    assert w.log[e - 1] == seg[|seg| - 1];
    assert PassWithin(d, log, |w.log|, b, e);
  }

  lemma ProvisioningKeepsInv(d: DriverConfig, w: World, s: Status)
    requires Inv(d, w) && s in w.saved && !StorageBucketReconcileRequired(s, w.clock)
    ensures Inv(d, w.Noted(Provisioning(s, w.clock)))
  {
    hide Done, Follows, Recorded, JustifiedAt, NamedBefore;
    var w' := w.Noted(Provisioning(s, w.clock));
    assert w'.log == w.log + [Provisioning(s, w.clock)];
    forall k | 0 <= k < |w.saved|
      ensures Stale(w'.saved[k], w'.clock) || Done(d, w'.saved[k], w'.log)
      ensures 0 < k ==> Recorded(w'.saved[k], w'.log)
      ensures 0 < k ==> Follows(d, w'.saved[k - 1], w'.saved[k], w'.log)
    {
      OldStatusStaysGood(d, w, w', k);
    }
    JustNow(d, w, s);
    GoodLogGrows(d, w.log, w'.log);
  }

  /** A driver is only called on a stale, unprovisioned or unnamed status, and the first implies the
      others cannot carry a fresh sync time. */
  lemma CalledWhenStale(d: DriverConfig, w: World, s: Status)
    requires Inv(d, w) && s in w.saved && StorageBucketReconcileRequired(s, w.clock)
    ensures Stale(s, w.clock)
  {
  }

  lemma MoveFollows(d: DriverConfig, s: Status, t: Status, w: World, w': World)
    requires w.log <= w'.log && Move(d.Platform(), d.InfraName(), s, t, w, w')
    ensures Follows(d, s, t, w'.log)
    ensures Done(d, t, w'.log) || t.lastSync == s.lastSync
  {
  }

  /** Whatever was true of an old status stays true as time passes and the log grows. */
  lemma OldStatusStaysGood(d: DriverConfig, w: World, w': World, k: nat)
    requires Inv(d, w) && Extends(w, w') && k < |w.saved|
    ensures Stale(w'.saved[k], w'.clock) || Done(d, w'.saved[k], w'.log)
    ensures 0 < k ==> Recorded(w'.saved[k], w'.log) && Follows(d, w'.saved[k - 1], w'.saved[k], w'.log)
  {
    hide Done, Follows, Recorded, GoodLog;
    DoneLasts(d, w.saved[k], w.log, w'.log);
    RecordsLast(w, w');
    if k > 0 {
      FollowsOn(d, w.saved[k - 1], w.saved[k], w.log, w'.log);
    }
  }

  lemma FollowsOn(d: DriverConfig, s: Status, t: Status, log: seq<Event>, log': seq<Event>)
    requires log <= log' && Follows(d, s, t, log)
    ensures Follows(d, s, t, log')
  {
    hide Done, Occurs, Sighted;
    forall e | e == Missed(t.name) || e == Missed(s.name) || e == Denied(s.name)
      ensures Occurs(e, log, 0) ==> Occurs(e, log', 0)
    {
      OccursOn(e, log, log', 0);
    }
    SightedOn(t.name, log, log', 0);
    DoneLasts(d, t, log, log');
  }

  lemma NewStatusIsGood(d: DriverConfig, w: World, inst: Instance, r: Reply, k: nat)
    requires Inv(d, w) && inst.version < |w.saved| && inst.status == w.saved[inst.version]
    requires StorageBucketReconcileRequired(inst.status, w.clock)
    requires Call(d.Platform(), d.InfraName(), w, inst, r)
    requires |w.saved| <= k < |r.w.saved|
    ensures Stale(r.w.saved[k], r.w.clock) || Done(d, r.w.saved[k], r.w.log)
    ensures Follows(d, r.w.saved[k - 1], r.w.saved[k], r.w.log)
  {
    hide Done, NoDeletion, Keeps, NewEvents, Move;
    var w', n := r.w, |w.saved|;
    CalledWhenStale(d, w, inst.status);
    MoveFollows(d, inst.status, w'.saved[n], w, w');
    if k > n {
      MoveFollows(d, w'.saved[n], w'.saved[n + 1], w, w');
      FirstOfTwoIsNaming(d, inst.status, w'.saved[n], w, w');
    }
  }

  /** Before a second move comes only the choice of a name, which leaves the sync time alone. */
  lemma FirstOfTwoIsNaming(d: DriverConfig, s: Status, t: Status, w: World, w': World)
    requires s.name == "" && w.log <= w'.log && Move(d.Platform(), d.InfraName(), s, t, w, w')
    ensures t.lastSync == s.lastSync
  {
  }

  lemma CallKeepsLog(d: DriverConfig, w: World, inst: Instance, r: Reply)
    requires Inv(d, w) && inst.version < |w.saved| && inst.status == w.saved[inst.version]
    requires Call(d.Platform(), d.InfraName(), w, inst, r)
    ensures GoodLog(d, r.w.log)
  {
    hide Done, Keeps, NoDeletion;
    var log' := r.w.log;
    forall i | |w.log| <= i < |log'| && log'[i].Made?
      ensures NamedBefore(log', i)
    {
      assert Recorded(inst.status, w.log) && w.log <= log'[..i];
      RecordsLast(w, r.w.(log := log'[..i]));
    }
    GoodLogGrows(d, w.log, log');
  }

  lemma CallKeepsInv(d: DriverConfig, w: World, inst: Instance, r: Reply)
    requires Inv(d, w) && inst.version < |w.saved| && inst.status == w.saved[inst.version]
    requires StorageBucketReconcileRequired(inst.status, w.clock)
    requires Call(d.Platform(), d.InfraName(), w, inst, r)
    ensures Inv(d, r.w)
  {
    hide Done, NoDeletion, Keeps, NewEvents, Move, Follows;
    forall k | 0 <= k < |r.w.saved|
      ensures Stale(r.w.saved[k], r.w.clock) || Done(d, r.w.saved[k], r.w.log)
      ensures 0 < k ==> Recorded(r.w.saved[k], r.w.log)
      ensures 0 < k ==> Follows(d, r.w.saved[k - 1], r.w.saved[k], r.w.log)
    {
      if k < |w.saved| {
        OldStatusStaysGood(d, w, r.w, k);
      } else {
        NewStatusIsGood(d, w, inst, r, k);
      }
    }
    CallKeepsLog(d, w, inst, r);
    CallKeepsDated(d.Platform(), d.InfraName(), w, inst, r);
  }

  lemma CallKeepsDated(p: Platform, infraName: string, w: World, inst: Instance, r: Reply)
    requires Dated(w) && Call(p, infraName, w, inst, r)
    ensures Dated(r.w)
  {
    hide Move, Recorded, Keeps;
  }

  // ---- Runs ----

  /** A reconcile is a few reads and then at most one driver call or one provisioning of Velero, on a
      version of the status that was persisted. */
  lemma ReconcileCases(w: World, infra: Infrastructure, d: DriverConfig)
    returns (w1: World, inst: Instance)
    requires NewDriver(infra) == Some(d)
    ensures Stays(w, w1) && w1.log == w.log
    ensures ReconcileStep(w, infra).0 == w1 || inst.version < |w1.saved|
    ensures ReconcileStep(w, infra).0 == w1 ||
            (inst.status == w1.saved[inst.version] && ReconcileStep(w, infra).0 == Gate(w1, inst, d).0)
    ensures NoDeletion(w) ==> Keeps(w, w1) && NoDeletion(w1)
  {
    hide Gate;
    var (w0, a) := Load(w);
    w1, inst := w0, Instance(UNSET, 0);
    if a.Got? {
      w1, inst := Ping(w0).0, a.inst;
    }
  }

  lemma ReconcileKeepsInv(w: World, infra: Infrastructure, d: DriverConfig)
    requires NewDriver(infra) == Some(d) && Inv(d, w)
    ensures Inv(d, ReconcileStep(w, infra).0)
  {
    hide ReconcileStep, StorageStep, Call, Inv;
    var w1, inst := ReconcileCases(w, infra, d);
    PassingTimeKeepsInv(d, w, w1);
    if ReconcileStep(w, infra).0 != w1 {
      if StorageBucketReconcileRequired(inst.status, w1.clock) {
        StorageStepIsCall(w1, inst, d);
        CallKeepsInv(d, w1, inst, StorageStep(w1, inst, d));
      } else {
        assert inst.status in w1.saved;
        ProvisioningKeepsInv(d, w1, inst.status);
      }
    }
  }

  lemma {:induction false} RunKeepsInv(w: World, infra: Infrastructure, d: DriverConfig, n: nat)
    requires Init(w) && NewDriver(infra) == Some(d)
    ensures Inv(d, Run(w, infra, n))
  {
    hide ReconcileStep, Done;
    if n > 0 {
      RunKeepsInv(w, infra, d, n - 1);
      ReconcileKeepsInv(Run(w, infra, n - 1), infra, d);
    }
  }

  /** Velero is never provisioned on a bucket that was not completely enforced within the period. */
  lemma ProvisioningIsJustified(w: World, infra: Infrastructure, d: DriverConfig, n: nat, i: nat)
    requires Init(w) && NewDriver(infra) == Some(d)
    requires i < |Run(w, infra, n).log| && Run(w, infra, n).log[i].Provisioning?
    ensures JustifiedAt(d, Run(w, infra, n).log, i)
  {
    hide ReconcileStep;
    RunKeepsInv(w, infra, d, n);
  }

  /** No bucket is created before its name was persisted. */
  lemma NamingIsWriteAhead(w: World, infra: Infrastructure, d: DriverConfig, n: nat, i: nat)
    requires Init(w) && NewDriver(infra) == Some(d)
    requires i < |Run(w, infra, n).log| && Run(w, infra, n).log[i].Made?
    ensures NamedBefore(Run(w, infra, n).log, i)
  {
    hide ReconcileStep;
    RunKeepsInv(w, infra, d, n);
  }

  /** A chosen name is only ever cleared, never replaced, and only on S3 after the cloud denied it. */
  lemma NamesAreOnlyClearedWhenDenied(w: World, infra: Infrastructure, d: DriverConfig, n: nat, k: nat)
    requires Init(w) && NewDriver(infra) == Some(d)
    requires k + 1 < |Run(w, infra, n).saved|
    ensures var s, t := Run(w, infra, n).saved[k], Run(w, infra, n).saved[k + 1];
            s.name != "" && t.name != s.name ==>
              d.AwsDriver? && t.name == "" && Occurs(Denied(s.name), Run(w, infra, n).log, 0)
  {
    hide ReconcileStep;
    RunKeepsInv(w, infra, d, n);
    assert Follows(d, Run(w, infra, n).saved[k], Run(w, infra, n).saved[k + 1], Run(w, infra, n).log);
  }

  /** Without a usable driver nothing is ever called or provisioned. */
  lemma {:induction false} NoDriverNoEffect(w: World, infra: Infrastructure, n: nat)
    requires NewDriver(infra).None?
    ensures Run(w, infra, n).saved == w.saved && Run(w, infra, n).log == w.log
  {
    hide Gate;
    if n > 0 {
      NoDriverNoEffect(w, infra, n - 1);
    }
  }
}
