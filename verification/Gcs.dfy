/** The GCS storage driver (pkg/storage/gcs/gcs.go). */
module Gcs {
  import opened Options
  import opened Cloud
  import opened GcsBucket
  import opened Phases

  datatype Config = Config(region: string, project: string, infraName: string)

  /** Finds a labelled bucket, or proposes an unused name; either way the call ends here. */
  function NameStep(w: World, inst: Instance, d: Config): Reply {
    var (w1, listed) := ListBuckets(w);
    if listed.None? then Reply(w1, inst, false)
    else
      AdoptOrPropose(w1, inst, FirstMatch(listed.value, d.infraName))
  }

  function EnforceStep(w: World, inst: Instance, d: Config): Reply {
    var n := inst.status.name;
    var (w1, ok) := Put(w, n, MergeLabels(OurLabels(d.infraName)));
    if !ok then Reply(w1, inst, false)
    else Saving(w1, inst.(status := Status(n, true, Some(w1.clock))))
  }

  function VerifyStep(w: World, inst: Instance, d: Config): Reply {
    var (w1, a) := Head(w, inst.status.name);
    match a
    case Failed => Reply(w1, inst, false)
    case Absent => Saving(w1, inst.(status := inst.status.(provisioned := false)))
    case Found => EnforceStep(w1, inst, d)
  }

  /** Unlike S3, every creation error is fatal, also for a bucket the operator made itself. */
  function CreateStep(w: World, inst: Instance, d: Config): Reply {
    var (w1, a) := Create(w, inst.status.name, NewBucket(d.region, d.infraName));
    if a.Fresh? then VerifyStep(w1, inst, d) else Reply(w1, inst, false)
  }

  function StorageStep(w: World, inst: Instance, d: Config): Reply {
    if inst.status.name == "" then NameStep(w, inst, d)
    else if !inst.status.provisioned then CreateStep(w, inst, d)
    else VerifyStep(w, inst, d)
  }

  // ---- The driver implements the abstract machine ----

  lemma PassIsFullSync(infraName: string, s: Status, seen: Event, put: Event, saved: Event)
    requires s.name != "" && s.provisioned && Set(put, s.name, MergeLabels(OurLabels(infraName)))
    requires seen.Seen? && seen.name == s.name && seen.at <= put.at
    requires s.lastSync == Some(put.at) && saved.Saved? && saved.status == s && put.at <= saved.at
    ensures FullSync(Gcp, infraName, s, [seen, put, saved])
  {
    hide OurLabels;
  }

  lemma EnforceIsTail(w: World, inst: Instance, d: Config)
    requires inst.status.name != "" && w.log != [] && w.log[|w.log| - 1] == Seen(inst.status.name, w.clock)
    ensures Tail(Gcp, d.infraName, w, inst, EnforceStep(w, inst, d))
  {
    hide Put, Save, OurLabels, FullSync;
    var k, r := |w.log|, EnforceStep(w, inst, d);
    if r.w.saved != w.saved {
      var s := r.w.saved[|w.saved|];
      PassIsFullSync(d.infraName, s, w.log[k - 1], r.w.log[k], r.w.log[k + 1]);
      assert r.w.log[k - 1..k + 2] == [w.log[k - 1], r.w.log[k], r.w.log[k + 1]];
      assert FullSyncAt(Gcp, d.infraName, s, r.w.log, k - 1, k + 2);
    }
  }

  lemma VerifyIsTail(w: World, inst: Instance, d: Config)
    requires inst.status.name != ""
    ensures Tail(Gcp, d.infraName, w, inst, VerifyStep(w, inst, d))
  {
    hide Head, Saving, EnforceStep, Tail;
    var (w1, a) := Head(w, inst.status.name);
    match a {
      case Found =>
        EnforceIsTail(w1, inst, d);
        QuietThenTail(Gcp, d.infraName, w, w1, inst, EnforceStep(w1, inst, d));
      case Absent =>
        OccursAt(Missed(inst.status.name), w1.log, |w.log|, |w.log|);
        SavingIsTail(Gcp, d.infraName, w, w1, inst, inst.status.(provisioned := false));
      case Failed =>
        QuietIsTail(Gcp, d.infraName, w, w1, inst);
    }
  }

  /** What matches in a listing was listed and, without outside deletions, is a bucket of ours. */
  lemma ListingFinds(w: World, infraName: string)
    ensures var (w1, listed) := ListBuckets(w);
            && Browses(w, w1)
            && (listed.Some? && FirstMatch(listed.value, infraName) != "" ==>
                  && Sighted(FirstMatch(listed.value, infraName), w1.log, |w.log|)
                  && (NoDeletion(w) ==> w1.Mine(FirstMatch(listed.value, infraName))))
  {
    hide ListBuckets, FirstMatch;
    var (w1, listed) := ListBuckets(w);
    if listed.Some? && FirstMatch(listed.value, infraName) != "" {
      var i := FirstMatchIsListed(listed.value, infraName);
      assert NamesOf(listed.value)[i] in w1.log[|w.log|].names;
      assert listed.value[i] in listed.value;
    }
  }

  lemma NameStepIsCall(w: World, inst: Instance, d: Config)
    requires inst.status.name == ""
    ensures Call(Gcp, d.infraName, w, inst, NameStep(w, inst, d))
  {
    hide AdoptOrPropose, ListBuckets, FirstMatch, Tail, Call, Sighted;
    ListingFinds(w, d.infraName);
    var (w1, listed) := ListBuckets(w);
    if listed.Some? {
      AdoptOrProposeIsTail(Gcp, d.infraName, w, w1, inst, FirstMatch(listed.value, d.infraName));
    } else {
      QuietIsTail(Gcp, d.infraName, w, w1, inst);
    }
    TailIsCall(Gcp, d.infraName, w, inst, NameStep(w, inst, d));
  }

  lemma CreateStepIsCall(w: World, inst: Instance, d: Config)
    requires inst.status.name != "" && !inst.status.provisioned
    ensures Call(Gcp, d.infraName, w, inst, CreateStep(w, inst, d))
  {
    hide VerifyStep, Create, OurLabels, Witnessed, Occurs, Sighted, Recorded;
    var (w1, a) := Create(w, inst.status.name, NewBucket(d.region, d.infraName));
    if a.Fresh? {
      VerifyIsTail(w1, inst, d);
      Prefixed(Gcp, d.infraName, w, w1, inst, VerifyStep(w1, inst, d));
    }
  }

  /** Every GCS driver call is at most one abstract move, and never gives a name up. */
  lemma StorageStepIsCall(w: World, inst: Instance, d: Config)
    ensures Call(Gcp, d.infraName, w, inst, StorageStep(w, inst, d))
  {
    hide NameStep, VerifyStep, CreateStep, Tail, Call;
    if inst.status.name == "" {
      NameStepIsCall(w, inst, d);
    } else if inst.status.provisioned {
      VerifyIsTail(w, inst, d);
      TailIsCall(Gcp, d.infraName, w, inst, VerifyStep(w, inst, d));
    } else {
      CreateStepIsCall(w, inst, d);
    }
  }

  class Driver {
    const config: Config

    constructor (config: Config)
      ensures this.config == config
    {
      this.config := config;
    }

    method CreateStorage(env: Env, instance: VeleroInstall) returns (ok: bool)
      modifies env, instance
      ensures Reply(env.w, instance.Value(), ok) == StorageStep(old(env.w), old(instance.Value()), config)
    {
      hide Head, Put, Create, Save, ListBuckets, FirstMatch, OurLabels;
      if instance.name == "" {
        var bucketList := ListAll(env);
        if bucketList.None? {
          return false;
        }
        var existing := FindVeleroBucket(bucketList.value, config.infraName);
        if existing != "" {
          instance.name := existing;
          instance.provisioned := true;
          ok := instance.StatusUpdate(env);
          return;
        }
        var proposed := BUCKET_PREFIX + env.w.Turn().uuid;
        var a := env.HeadBucket(proposed);
        if !a.Absent? {
          return false;
        }
        instance.name := proposed;
        instance.provisioned := false;
        ok := instance.StatusUpdate(env);
        return;
      }
      if !instance.provisioned {
        var created := env.CreateBucket(instance.name, NewBucket(config.region, config.infraName));
        if !created.Fresh? {
          return false;
        }
      }
      var found := env.HeadBucket(instance.name);
      if found.Failed? {
        return false;
      }
      if found.Absent? {
        instance.provisioned := false;
        ok := instance.StatusUpdate(env);
        return;
      }
      ok := env.PutSetting(instance.name, MergeLabels(OurLabels(config.infraName)));
      if !ok {
        return;
      }
      instance.provisioned := true;
      instance.lastSync := Some(env.w.clock);
      ok := instance.StatusUpdate(env);
    }
  }
}
