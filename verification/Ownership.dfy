/** Without outside deletions, a bucket marked provisioned is always one of the operator's own. */
module Ownership {
  import opened Options
  import opened Cloud
  import opened Phases
  import opened Controller
  import opened Safety
  import opened OneBucket
  import S3
  import S3Bucket
  import Gcs
  import GcsBucket

  ghost predicate Honest(w: World, from: nat) {
    forall k :: from <= k < |w.saved| && w.saved[k].provisioned ==> w.Mine(w.saved[k].name)
  }

  lemma PutShowsMine(w: World, name: string, c: Change)
    ensures Put(w, name, c).1 ==> Put(w, name, c).0.Mine(name)
  {
  }

  lemma SavingIsHonest(w: World, inst: Instance)
    requires NoDeletion(w) && (inst.status.provisioned ==> w.Mine(inst.status.name))
    ensures Honest(Saving(w, inst).w, |w.saved|)
  {
    hide Save;
  }

  lemma AdoptIsHonest(w: World, inst: Instance, existing: string)
    requires NoDeletion(w) && (existing != "" ==> w.Mine(existing))
    ensures Honest(AdoptOrPropose(w, inst, existing).w, |w.saved|)
  {
    hide Head, Saving;
    if existing != "" {
      SavingIsHonest(w, inst.(status := Status(existing, true, inst.status.lastSync)));
    } else {
      var w1 := Head(w, BUCKET_PREFIX + w.Turn().uuid).0;
      SavingIsHonest(w1, inst.(status := Status(BUCKET_PREFIX + w.Turn().uuid, false, inst.status.lastSync)));
    }
  }

  // ---- S3 ----

  lemma S3EnforceIsHonest(w: World, inst: Instance, d: S3.Config)
    requires NoDeletion(w)
    ensures Honest(S3.EnforceStep(w, inst, d).w, |w.saved|)
  {
    hide Put, Saving, S3Bucket.Tagged;
    var n := inst.status.name;
    PutShowsMine(w, n, Encrypt);
    var w1 := Put(w, n, Encrypt).0;
    var w2 := Put(w1, n, BlockPublicAccess).0;
    var w3 := Put(w2, n, SetLifecycle).0;
    var w4 := S3Bucket.Tagged(w3, n, d.infraName).0;
    if w1.Mine(n) {
      assert w4.Mine(n);
      SavingIsHonest(w4, inst.(status := Status(n, true, Some(w4.clock))));
    }
  }

  lemma S3VerifyIsHonest(w: World, inst: Instance, d: S3.Config)
    requires NoDeletion(w)
    ensures Honest(S3.VerifyStep(w, inst, d).w, |w.saved|)
  {
    hide Head, Saving, S3.EnforceStep;
    var w1 := Head(w, inst.status.name).0;
    SavingIsHonest(w1, inst.(status := inst.status.(provisioned := false)));
    S3EnforceIsHonest(w1, inst, d);
  }

  lemma S3NameStepIsHonest(w: World, inst: Instance, d: S3.Config)
    requires NoDeletion(w)
    ensures Honest(S3.NameStep(w, inst, d).w, |w.saved|)
  {
    hide AdoptOrPropose, S3Bucket.RegionListing, S3Bucket.TagList, S3Bucket.Match;
    var (w1, names) := S3Bucket.RegionListing(w, d.region);
    if names.Some? {
      var (w2, tags) := S3Bucket.TagList(w1, names.value, []);
      if tags.Some? {
        S3Bucket.MatchIsListed(tags.value, d.infraName);
        AdoptIsHonest(w2, inst, S3Bucket.Match(tags.value, d.infraName));
      }
    }
  }

  lemma S3CreateStepIsHonest(w: World, inst: Instance, d: S3.Config)
    requires NoDeletion(w) && !inst.status.provisioned
    ensures Honest(S3.CreateStep(w, inst, d).w, |w.saved|)
  {
    hide Create, Saving, S3Bucket.Tagged, S3.VerifyStep;
    var w1 := Create(w, inst.status.name, S3Bucket.NewBucket(d.region)).0;
    SavingIsHonest(w1, inst.(status := inst.status.(name := "")));
    var w2 := S3Bucket.Tagged(w1, inst.status.name, d.infraName).0;
    S3VerifyIsHonest(w2, inst, d);
  }

  lemma S3StorageIsHonest(w: World, inst: Instance, d: S3.Config)
    requires NoDeletion(w)
    ensures Honest(S3.StorageStep(w, inst, d).w, |w.saved|)
  {
    hide S3.NameStep, S3.CreateStep, S3.VerifyStep;
    if inst.status.name == "" {
      S3NameStepIsHonest(w, inst, d);
      S3.NameStepIsTail(w, inst, d);
      var r := S3.NameStep(w, inst, d);
      S3VerifyIsHonest(r.w, r.inst, d);
      if r.ok {
        S3.VerifyIsTail(r.w, r.inst, d);
      }
    } else if inst.status.provisioned {
      S3VerifyIsHonest(w, inst, d);
    } else {
      S3CreateStepIsHonest(w, inst, d);
    }
  }

  // ---- GCS ----

  lemma GcsVerifyIsHonest(w: World, inst: Instance, d: Gcs.Config)
    requires NoDeletion(w)
    ensures Honest(Gcs.VerifyStep(w, inst, d).w, |w.saved|)
  {
    hide Head, Put, Saving, GcsBucket.OurLabels;
    var n := inst.status.name;
    var w1 := Head(w, n).0;
    SavingIsHonest(w1, inst.(status := inst.status.(provisioned := false)));
    PutShowsMine(w1, n, MergeLabels(GcsBucket.OurLabels(d.infraName)));
    var w2 := Put(w1, n, MergeLabels(GcsBucket.OurLabels(d.infraName))).0;
    if w2.Mine(n) {
      SavingIsHonest(w2, inst.(status := Status(n, true, Some(w2.clock))));
    }
  }

  lemma GcsStorageIsHonest(w: World, inst: Instance, d: Gcs.Config)
    requires NoDeletion(w)
    ensures Honest(Gcs.StorageStep(w, inst, d).w, |w.saved|)
  {
    hide Create, Saving, AdoptOrPropose, Gcs.VerifyStep, GcsBucket.ListBuckets, GcsBucket.FirstMatch;
    if inst.status.name == "" {
      Gcs.ListingFinds(w, d.infraName);
      var (w1, listed) := GcsBucket.ListBuckets(w);
      if listed.Some? {
        AdoptIsHonest(w1, inst, GcsBucket.FirstMatch(listed.value, d.infraName));
      }
    } else if inst.status.provisioned {
      GcsVerifyIsHonest(w, inst, d);
    } else {
      var w1 := Create(w, inst.status.name, GcsBucket.NewBucket(d.region, d.infraName)).0;
      GcsVerifyIsHonest(w1, inst, d);
    }
  }

  // ---- Runs ----

  lemma ReconcileKeepsHonest(w: World, infra: Infrastructure, d: DriverConfig)
    requires NewDriver(infra) == Some(d) && NoDeletion(w) && Honest(w, 0)
    ensures Honest(ReconcileStep(w, infra).0, 0)
  {
    hide ReconcileStep, S3.StorageStep, Gcs.StorageStep, Call;
    var w1, inst := ReconcileCases(w, infra, d);
    if ReconcileStep(w, infra).0 != w1 && StorageBucketReconcileRequired(inst.status, w1.clock) {
      match d {
        case AwsDriver(c) => S3StorageIsHonest(w1, inst, c);
        case GcpDriver(c) => GcsStorageIsHonest(w1, inst, c);
      }
      StorageStepIsCall(w1, inst, d);
      CallExtends(d.Platform(), d.InfraName(), w1, inst, StorageStep(w1, inst, d));
    }
  }

  /** In every run every status ever marked provisioned names a bucket of ours. */
  lemma {:induction false} ProvisionedIsOurs(w: World, infra: Infrastructure, d: DriverConfig, n: nat)
    requires Init(w) && NoDeletion(w) && NewDriver(infra) == Some(d)
    ensures Honest(Run(w, infra, n), 0) && NoDeletion(Run(w, infra, n))
  {
    hide ReconcileStep;
    if n > 0 {
      ProvisionedIsOurs(w, infra, d, n - 1);
      ReconcileKeepsHonest(Run(w, infra, n - 1), infra, d);
      RunExtends(w, infra, 0, n);
    }
  }
}
