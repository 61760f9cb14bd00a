/** How creations and reconciles end, in any weather: what is done before what, what an error leaves undone, and
    whether a new bucket could be found again. */
module Outcomes {
  import opened Options
  import opened Cloud
  import opened Phases
  import opened Controller
  import opened Recovery
  import S3
  import S3Bucket
  import Gcs
  import GcsBucket

  // ---- Creation on S3 ----

  /** From position `i` of the log: the tag set was cleared, then ours was written. */
  ghost predicate TaggedFrom(log: seq<Event>, i: nat, name: string, infraName: string) {
    && i + 1 < |log|
    && log[i].Did? && log[i].name == name && log[i].change == ClearTags
    && log[i + 1].Did? && log[i + 1].name == name && log[i + 1].change.PutTags?
    && OurTagSet(log[i + 1].change.tags, infraName)
  }

  /** The tag set the operator writes, in either order. */
  ghost predicate OurTagSet(tags: seq<Tag>, infraName: string) {
    var a, b := Tag("velero.io/backup-location", "default"), Tag("velero.io/infrastructureName", infraName);
    tags == [a, b] || tags == [b, a]
  }

  lemma TaggedInLog(w: World, name: string, infraName: string)
    ensures var (w', ok) := S3Bucket.Tagged(w, name, infraName);
            && w.log <= w'.log && w'.saved == w.saved
            && (forall i :: |w.log| <= i < |w'.log| ==> w'.log[i].Did?)
            && (ok ==> |w'.log| == |w.log| + 2 && TaggedFrom(w'.log, |w.log|, name, infraName))
  {
    hide Put;
  }

  lemma StepsExtend(w: World, inst: Instance, d: S3.Config)
    requires inst.status.name != ""
    ensures w.log <= S3.VerifyStep(w, inst, d).w.log
  {
    hide S3.VerifyStep, Tail;
    S3.VerifyIsTail(w, inst, d);
    TailIsCall(Aws, d.infraName, w, inst, S3.VerifyStep(w, inst, d));
  }

  /** From a named, unprovisioned status: only a bucket that was made, or that turned out to be our own, is
      worked on, and before it is looked up, or any status is persisted for it, it is tagged; a name held by
      others is given up, and any other answer ends the call with an error. */
  lemma S3CreationOutcome(w: World, inst: Instance, d: S3.Config)
    requires inst.status.name != "" && !inst.status.provisioned
    ensures var n, r := inst.status.name, S3.StorageStep(w, inst, d);
            var (w1, a) := Create(w, n, S3Bucket.NewBucket(d.region));
            && w1.log <= r.w.log
            && match a
               case NotCreated => r == Reply(w1, inst, false)
               case Taken =>
                 (forall i :: |w1.log| <= i < |r.w.log| ==> r.w.log[i].Saved? && r.w.log[i].status.name == "")
               case _ =>
                 && (r.ok ==> TaggedFrom(r.w.log, |w1.log|, n, d.infraName))
                 && forall i :: |w1.log| <= i < |r.w.log| && !r.w.log[i].Did? ==>
                      i >= |w1.log| + 2 && TaggedFrom(r.w.log, |w1.log|, n, d.infraName)
  {
    hide Create, S3.VerifyStep, S3Bucket.Tagged, Save, TaggedFrom;
    var (w1, a) := Create(w, inst.status.name, S3Bucket.NewBucket(d.region));
    if a.Fresh? || a.Yours? {
      TaggedInLog(w1, inst.status.name, d.infraName);
      var (w2, ok) := S3Bucket.Tagged(w1, inst.status.name, d.infraName);
      StepsExtend(w2, inst, d);
      if ok {
        StillTagged(w2.log, S3.VerifyStep(w2, inst, d).w.log, |w1.log|, inst.status.name, d.infraName);
      }
    }
  }

  lemma StillTagged(log: seq<Event>, log': seq<Event>, i: nat, name: string, infraName: string)
    requires TaggedFrom(log, i, name, infraName) && log <= log'
    ensures TaggedFrom(log', i, name, infraName)
  {
  }

  // ---- Creation on GCS ----

  /** Anything but a new bucket ends the call with an error. */
  lemma GcsCreationOutcome(w: World, inst: Instance, d: Gcs.Config)
    requires inst.status.name != "" && !inst.status.provisioned
    ensures var (w1, a) := Create(w, inst.status.name, GcsBucket.NewBucket(d.region, d.infraName));
            !a.Fresh? ==> Gcs.StorageStep(w, inst, d) == Reply(w1, inst, false)
  {
    hide Create, Gcs.VerifyStep, GcsBucket.OurLabels;
  }

  // ---- Can a bucket be found again? ----

  /** No outsider does anything to buckets; calls may still fail in every way. */
  ghost predicate Undisturbed(w: World) {
    forall i: nat :: w.pos <= i ==> w.turns(i).gone == {} && w.turns(i).born == map[] && w.turns(i).edits == map[]
  }

  lemma QuietNext(w: World)
    requires Undisturbed(w)
    ensures w.Next().cloud == w.cloud && Undisturbed(w.Next())
  {
  }

  lemma QuietPut(w: World, name: string, c: Change)
    requires Undisturbed(w) && w.Mine(name)
    ensures var (w', ok) := Put(w, name, c);
            && Undisturbed(w') && w'.pos == w.pos + 1 && w'.turns == w.turns
            && (ok <==> w.Turn().fate.Served?)
            && w'.cloud == if w.Turn().fate.Served? || w.Turn().fate.Lost?
                           then w.cloud[name := w.cloud[name].(settings := Applied(w.cloud[name].settings, c))]
                           else w.cloud
  {
    QuietNext(w);
  }

  lemma QuietSave(w: World, inst: Instance)
    requires Undisturbed(w)
    ensures Saving(w, inst).w.cloud == w.cloud
  {
    QuietNext(w);
  }

  /** The settings of a bucket were changed without its tags. */
  lemma StaysRecoverable(w: World, w': World, name: string, s: Settings, d: S3.Config)
    requires w.Mine(name) && w'.cloud == w.cloud[name := w.cloud[name].(settings := s)]
    requires s.tags == w.cloud[name].settings.tags
    ensures Recoverable(w', name, d) <==> Recoverable(w, name, d)
  {
    hide S3Bucket.Carries;
    assert forall n :: w'.Mine(n) <==> w.Mine(n);
    assert forall n :: w.Mine(n) ==> w'.cloud[n].location == w.cloud[n].location
                                     && w'.cloud[n].settings.tags == w.cloud[n].settings.tags;
  }

  lemma QuietSetting(w: World, name: string, c: Change, d: S3.Config)
    requires Undisturbed(w) && w.Mine(name) && (c.Encrypt? || c.BlockPublicAccess? || c.SetLifecycle?)
    ensures var (w', ok) := Put(w, name, c);
            && Undisturbed(w') && w'.pos == w.pos + 1 && w'.turns == w.turns && w'.Mine(name)
            && (ok <==> w.Turn().fate.Served?)
            && (Recoverable(w', name, d) <==> Recoverable(w, name, d))
  {
    hide Put, Recoverable, Applied;
    QuietPut(w, name, c);
    var s := Applied(w.cloud[name].settings, c);
    assert s.tags == w.cloud[name].settings.tags by { AppliedKeepsTags(w.cloud[name].settings, c); }
    var w' := Put(w, name, c).0;
    if w'.cloud == w.cloud {
      SameCloud(w, w', name, d);
    } else {
      StaysRecoverable(w, w', name, s, d);
    }
  }

  lemma AppliedKeepsTags(s: Settings, c: Change)
    requires c.Encrypt? || c.BlockPublicAccess? || c.SetLifecycle?
    ensures Applied(s, c).tags == s.tags
  {
  }

  lemma SameCloud(w: World, w': World, name: string, d: S3.Config)
    requires w'.cloud == w.cloud
    ensures Recoverable(w', name, d) <==> Recoverable(w, name, d)
  {
  }

  ghost predicate AllServed(w: World, from: nat, n: nat) {
    forall i: nat :: from <= i < from + n ==> w.turns(i).fate.Served?
  }

  lemma AllServedSplits(w: World, w': World, from: nat, n: nat)
    requires w'.turns == w.turns
    ensures AllServed(w, from, n + 1) <==> w.turns(from).fate.Served? && AllServed(w', from + 1, n)
    ensures AllServed(w, from + 1, 0)
  {
  }

  /** Clearing takes effect and writing does not: counted from the call that clears. */
  predicate CutBetween(w: World, i: nat) {
    || w.turns(i).fate.Lost?
    || (w.turns(i).fate.Served? && (w.turns(i + 1).fate.Refused? || w.turns(i + 1).fate.Hidden?))
  }

  lemma QuietTagging(w: World, name: string, d: S3.Config)
    requires Undisturbed(w) && Recoverable(w, name, d)
    ensures var (w', ok) := S3Bucket.Tagged(w, name, d.infraName);
            && Undisturbed(w')
            && (Recoverable(w', name, d) <==> !CutBetween(w, w.pos))
  {
    hide Put, S3Bucket.Carries, S3Bucket.OurTags, S3Bucket.AreOurTags;
    QuietPut(w, name, ClearTags);
    var (w1, ok) := Put(w, name, ClearTags);
    if ok {
      QuietPut(w1, name, PutTags(S3Bucket.OurTags(d.infraName, w1.Turn().slot)));
    }
  }

  /** Verifying and enforcing, whatever fails: the bucket can be found again afterwards, except when everything
      up to the clearing of its tags went through and the clearing took effect but the writing did not. */
  lemma VerifyKeepsRecoverable(w: World, inst: Instance, d: S3.Config)
    requires Undisturbed(w) && Recoverable(w, inst.status.name, d)
    ensures Recoverable(S3.VerifyStep(w, inst, d).w, inst.status.name, d) <==>
            !(AllServed(w, w.pos, 4) && CutBetween(w, w.pos + 4))
  {
    hide Recoverable, Saving, S3.EnforceStep, CutBetween, AllServed;
    var n := inst.status.name;
    AllServedSplits(w, w, w.pos, 3);
    assert w.Mine(n) by { RecoverableIn(w, w, n, d); }
    QuietNext(w);
    var (w1, a) := Head(w, n);
    assert w1.cloud == w.cloud && (a.Found? <==> w.Turn().fate.Served?);
    SameCloud(w, w1, n, d);
    if a.Found? {
      EnforceKeepsRecoverable(w1, inst, d);
      AllServedSplits(w, w1, w.pos, 3);
      SameTurns(w, w1, w.pos + 4);
    } else if a.Absent? {
      var inst' := inst.(status := inst.status.(provisioned := false));
      QuietSave(w1, inst');
      SameCloud(w1, Saving(w1, inst').w, n, d);
    }
  }

  lemma EnforceKeepsRecoverable(w: World, inst: Instance, d: S3.Config)
    requires Undisturbed(w) && Recoverable(w, inst.status.name, d)
    ensures Recoverable(S3.EnforceStep(w, inst, d).w, inst.status.name, d) <==>
            !(AllServed(w, w.pos, 3) && CutBetween(w, w.pos + 3))
  {
    hide Recoverable, Saving, Put, S3Bucket.Tagged, CutBetween, AllServed;
    var n := inst.status.name;
    assert w.Mine(n) by { RecoverableIn(w, w, n, d); }
    AllServedSplits(w, w, w.pos, 2);
    AllServedSplits(w, w, w.pos + 1, 1);
    AllServedSplits(w, w, w.pos + 2, 0);
    QuietSetting(w, n, Encrypt, d);
    var (w1, ok1) := Put(w, n, Encrypt);
    if ok1 {
      QuietSetting(w1, n, BlockPublicAccess, d);
      var (w2, ok2) := Put(w1, n, BlockPublicAccess);
      if ok2 {
        QuietSetting(w2, n, SetLifecycle, d);
        var (w3, ok3) := Put(w2, n, SetLifecycle);
        if ok3 {
          QuietTagging(w3, n, d);
          SameTurns(w, w3, w.pos + 3);
          var w4 := S3Bucket.Tagged(w3, n, d.infraName).0;
          var inst' := inst.(status := Status(n, true, Some(w4.clock)));
          QuietSave(w4, inst');
          SameCloud(w4, Saving(w4, inst').w, n, d);
        }
      }
    }
  }

  lemma SameTurns(w: World, w': World, i: nat)
    requires w'.turns == w.turns
    ensures CutBetween(w', i) <==> CutBetween(w, i)
  {
  }

  /** The round trip through the driver. A creation whose first three calls were served leaves a bucket that an
      empty status would find again, whatever fails afterwards, except when the same call, having verified the
      bucket and enforced its other settings, clears its tags and does not get to write them again. */
  lemma S3CreationIsRecoverable(w: World, inst: Instance, d: S3.Config)
    requires Undisturbed(w) && inst.status.name != "" && !inst.status.provisioned && inst.status.name !in w.cloud
    requires AllServed(w, w.pos, 3)
    requires forall n :: w.Mine(n) && S3Bucket.RegionOf(w.cloud[n].location) == d.region
                         && w.cloud[n].settings.tags.Some?
               ==> !S3Bucket.Carries(S3Bucket.Entry(n, w.cloud[n].settings.tags.value), d.infraName)
    ensures Recoverable(S3.StorageStep(w, inst, d).w, inst.status.name, d) <==>
            !(AllServed(w, w.pos + 3, 4) && CutBetween(w, w.pos + 7))
  {
    hide S3.VerifyStep, S3Bucket.Tagged, CutBetween, S3Bucket.Carries;
    var n := inst.status.name;
    CreatedAndTagged(w, n, d);
    var w1 := Create(w, n, S3Bucket.NewBucket(d.region)).0;
    var (w3, ok) := S3Bucket.Tagged(w1, n, d.infraName);
    hide Create, Recoverable;
    VerifyKeepsRecoverable(w3, inst, d);
    SameTurns(w, w3, w.pos + 7);
    assert AllServed(w3, w3.pos, 4) <==> AllServed(w, w.pos + 3, 4);
  }

  /** A schedule on which only the writing of the tags after enforcement fails. */
  function TagsCut(i: nat): Turn {
    Turn(if i == 8 then Refused else Served, 0, {}, map[], map[], [], 0, 0, "")
  }

  /** It happens: the created bucket is there and ours, but an empty status would not find it. */
  lemma S3CreationMayLoseTags(d: S3.Config)
    ensures var s := Status("a", false, None);
            var w := World(map[], [s], 0, [], TagsCut, 0);
            !Recoverable(S3.StorageStep(w, Instance(s, 0), d).w, "a", d)
  {
    hide S3.StorageStep;
    var s := Status("a", false, None);
    var w := World(map[], [s], 0, [], TagsCut, 0);
    S3CreationIsRecoverable(w, Instance(s, 0), d);
    assert AllServed(w, 3, 4) && w.turns(7).fate.Served? && w.turns(8).fate.Refused?;
  }

  lemma CreatedAndTagged(w: World, name: string, d: S3.Config)
    requires Undisturbed(w) && name !in w.cloud && name != ""
    requires AllServed(w, w.pos, 3)
    requires forall n :: w.Mine(n) && S3Bucket.RegionOf(w.cloud[n].location) == d.region
                         && w.cloud[n].settings.tags.Some?
               ==> !S3Bucket.Carries(S3Bucket.Entry(n, w.cloud[n].settings.tags.value), d.infraName)
    ensures var (w1, a) := Create(w, name, S3Bucket.NewBucket(d.region));
            var (w3, ok) := S3Bucket.Tagged(w1, name, d.infraName);
            a.Fresh? && ok && Undisturbed(w3) && w3.pos == w.pos + 3 && w3.turns == w.turns && Recoverable(w3, name, d)
  {
    hide Put, S3Bucket.Carries, S3Bucket.OurTags, S3Bucket.AreOurTags;
    QuietNext(w);
    S3Bucket.LocationRoundTrip(d.region);
    var w1 := Create(w, name, S3Bucket.NewBucket(d.region)).0;
    QuietPut(w1, name, ClearTags);
    var w2 := Put(w1, name, ClearTags).0;
    QuietPut(w2, name, PutTags(S3Bucket.OurTags(d.infraName, w2.Turn().slot)));
  }

  /** On GCS, where the labels come with the bucket and are only ever added to, a creation that took effect
      leaves a bucket that an empty status would find again, in the region asked for, whatever fails. */
  lemma GcsCreationIsRecoverable(w: World, inst: Instance, d: Gcs.Config)
    requires Undisturbed(w) && inst.status.name != "" && !inst.status.provisioned && inst.status.name !in w.cloud
    requires w.Turn().fate.Served? || w.Turn().fate.Lost?
    requires forall n :: w.Mine(n) ==> !GcsBucket.CarriesLabels(w.cloud[n].settings.labels, d.infraName)
    ensures var w' := Gcs.StorageStep(w, inst, d).w;
            && GcsRecoverable(w', inst.status.name, d.infraName)
            && w'.cloud[inst.status.name].location == Some(GcsBucket.Upper(d.region))
  {
    hide GcsBucket.OurLabels, GcsBucket.CarriesLabels, GcsBucket.Upper, Gcs.VerifyStep;
    var n, labels := inst.status.name, GcsBucket.OurLabels(d.infraName);
    QuietNext(w);
    GcsBucket.MergedLabelsMatch(NO_SETTINGS, d.infraName, d.infraName);
    assert NO_SETTINGS.labels + labels == labels;
    var (w1, a) := Create(w, n, GcsBucket.NewBucket(d.region, d.infraName));
    assert GcsRecoverable(w1, n, d.infraName);
    if a.Fresh? {
      GcsVerifyKeeps(w1, inst, d);
    }
  }

  lemma GcsVerifyKeeps(w: World, inst: Instance, d: Gcs.Config)
    requires Undisturbed(w) && GcsRecoverable(w, inst.status.name, d.infraName)
    ensures var n, w' := inst.status.name, Gcs.VerifyStep(w, inst, d).w;
            GcsRecoverable(w', n, d.infraName) && w'.cloud[n].location == w.cloud[n].location
  {
    hide Saving, Put, GcsBucket.OurLabels, GcsBucket.CarriesLabels;
    var n, labels := inst.status.name, GcsBucket.OurLabels(d.infraName);
    QuietNext(w);
    var (w1, a) := Head(w, n);
    QuietSave(w1, inst.(status := inst.status.(provisioned := false)));
    QuietPut(w1, n, MergeLabels(labels));
    GcsBucket.MergedLabelsMatch(w.cloud[n].settings, d.infraName, d.infraName);
    var w2 := Put(w1, n, MergeLabels(labels)).0;
    QuietSave(w2, inst.(status := Status(n, true, Some(w2.clock))));
  }

  // ---- Reconciles ----

  /** Drivers exist exactly for AWS with a region, and for GCP with a region and a project. */
  lemma NewDriverMeans(infra: Infrastructure)
    ensures forall region, infraName ::
              NewDriver(infra) == Some(AwsDriver(S3.Config(region, infraName))) <==>
              infra == Infrastructure(AwsStatus(Some(region)), infraName) && region != ""
    ensures forall region, project, infraName ::
              NewDriver(infra) == Some(GcpDriver(Gcs.Config(region, project, infraName))) <==>
              infra == Infrastructure(GcpStatus(Some((region, project))), infraName) && region != "" && project != ""
  {
  }

  /** A resource that is gone is no error and has no effect; not being able to read it, or the infrastructure,
      or to tell the platform, is an error and has none. */
  lemma ReconcileEndsEarly(w: World, infra: Infrastructure)
    ensures var (w', ok) := ReconcileStep(w, infra);
            var fate, next := w.Turn().fate, w.turns(w.pos + 1).fate;
            var idle := w'.saved == w.saved && w'.log == w.log;
            && (fate.Refused? || fate.Lost? ==> idle && !ok)
            && (fate.Hidden? || (fate.Served? && w.saved == []) ==> idle && ok)
            && (fate.Served? && w.saved != [] && (!next.Served? || NewDriver(infra).None?) ==> idle && !ok)
  {
    hide Gate, NewDriver;
  }
}
