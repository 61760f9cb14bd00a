/** Which bucket an unnamed status comes to name, told from what the cloud answered. */
module Adoption {
  import opened Options
  import opened Cloud
  import opened Phases
  import opened OneBucket
  import opened Convergence
  import opened Recovery
  import S3
  import S3Bucket
  import Gcs
  import GcsBucket

  // ---- S3 ----

  /** The tag set names this cluster. */
  ghost predicate ForCluster(tags: seq<Tag>, infraName: string) {
    Tag("velero.io/infrastructureName", infraName) in tags
  }

  /** The tag set says that Velero's backups are here, whatever their location is called. */
  ghost predicate ForBackups(tags: seq<Tag>) {
    exists t :: t in tags && t.key == "velero.io/backup-location"
  }

  lemma TagsMean(tags: seq<Tag>, infraName: string)
    ensures S3Bucket.HasClusterTag(tags, infraName) <==> ForCluster(tags, infraName)
    ensures S3Bucket.HasVeleroTag(tags) <==> ForBackups(tags)
  {
    if ForCluster(tags, infraName) {
      var i :| 0 <= i < |tags| && tags[i] == Tag("velero.io/infrastructureName", infraName);
    }
    if S3Bucket.HasClusterTag(tags, infraName) {
      var i :| 0 <= i < |tags| && tags[i].key == S3Bucket.TAG_INFRA_NAME && tags[i].val == infraName;
      assert tags[i] == Tag("velero.io/infrastructureName", infraName);
    }
    if ForBackups(tags) {
      var t :| t in tags && t.key == "velero.io/backup-location";
      var i :| 0 <= i < |tags| && tags[i] == t;
    }
  }

  /** Both tags occur among the answers, on the same bucket or on different ones. */
  ghost predicate BothAnswered(es: seq<S3Bucket.Entry>, infraName: string) {
    && (exists e :: e in es && ForCluster(e.tags, infraName))
    && (exists e :: e in es && ForBackups(e.tags))
  }

  ghost predicate Named(es: seq<S3Bucket.Entry>) { forall e :: e in es ==> e.bucket != "" }

  /** A name comes out of the matcher exactly when both tags were answered, and it is that of a bucket that
      answered with one of them. */
  lemma MatchMeans(es: seq<S3Bucket.Entry>, infraName: string)
    requires Named(es)
    ensures S3Bucket.Match(es, infraName) != "" <==> BothAnswered(es, infraName)
    ensures BothAnswered(es, infraName) ==>
              exists e :: e in es && e.bucket == S3Bucket.Match(es, infraName)
                          && (ForCluster(e.tags, infraName) || ForBackups(e.tags))
  {
    forall e: S3Bucket.Entry
      ensures S3Bucket.HasClusterTag(e.tags, infraName) <==> ForCluster(e.tags, infraName)
      ensures S3Bucket.HasVeleroTag(e.tags) <==> ForBackups(e.tags)
    {
      TagsMean(e.tags, infraName);
    }
    hide ForCluster, ForBackups, S3Bucket.HasClusterTag, S3Bucket.HasVeleroTag;
    if BothAnswered(es, infraName) {
      var e :| e in es && ForCluster(e.tags, infraName);
      var i :| 0 <= i < |es| && es[i] == e;
      assert S3Bucket.Carries(es[i], infraName) && S3Bucket.AnyCluster(es, infraName);
      var f :| f in es && ForBackups(f.tags);
      var j :| 0 <= j < |es| && es[j] == f;
      assert S3Bucket.AnyVelero(es);
      var k := S3Bucket.LastCarrierIsLast(es, infraName);
      assert es[k] in es;
    }
  }

  /** In any weather: without all the answers nothing is persisted; with them, a persisted name is an adopted one
      exactly when both tags were answered, then of a bucket that answered with one of them, and otherwise a
      proposal that a lookup did not find. */
  lemma S3NamesByAnswers(w: World, inst: Instance, d: S3.Config)
    ensures var r := S3.NameStep(w, inst, d);
            var (w1, names) := S3Bucket.RegionListing(w, d.region);
            if names.None? then r == Reply(w1, inst, false)
            else
              var (w2, tags) := S3Bucket.TagList(w1, names.value, []);
              if tags.None? then r == Reply(w2, inst, false)
              else Named(tags.value) && r.w.saved != w.saved ==>
                && |r.w.saved| == |w.saved| + 1
                && var s := r.w.saved[|w.saved|];
                && s.lastSync == inst.status.lastSync
                && (s.provisioned <==> BothAnswered(tags.value, d.infraName))
                && if s.provisioned then
                     exists e :: e in tags.value && e.bucket == s.name
                                 && (ForCluster(e.tags, d.infraName) || ForBackups(e.tags))
                   else "managed-velero-backups-" <= s.name && Occurs(Missed(s.name), r.w.log, |w2.log|)
  {
    hide S3Bucket.RegionListing, S3Bucket.TagList, AdoptOrPropose, BothAnswered, Named, S3Bucket.Match;
    hide ForCluster, ForBackups, Occurs;
    var (w1, names) := S3Bucket.RegionListing(w, d.region);
    if names.Some? {
      var (w2, tags) := S3Bucket.TagList(w1, names.value, []);
      if tags.Some? && Named(tags.value) {
        MatchMeans(tags.value, d.infraName);
        WhatIsPersisted(w2, inst, S3Bucket.Match(tags.value, d.infraName));
      }
    }
  }

  lemma WhatIsPersisted(w: World, inst: Instance, existing: string)
    ensures var r := AdoptOrPropose(w, inst, existing);
            r.w.saved != w.saved ==>
              && |r.w.saved| == |w.saved| + 1
              && var s := r.w.saved[|w.saved|];
              && s.lastSync == inst.status.lastSync
              && if existing != "" then s.name == existing && s.provisioned
                 else !s.provisioned && "managed-velero-backups-" <= s.name
                      && Occurs(Missed(s.name), r.w.log, |w.log|)
  {
    hide Save, Head, Occurs;
    if existing == "" {
      var proposed := BUCKET_PREFIX + w.Turn().uuid;
      var (w1, a) := Head(w, proposed);
      var r := AdoptOrPropose(w, inst, "");
      if r.w.saved != w.saved {
        OccursAt(Missed(proposed), r.w.log, |w.log|, |w.log|);
      }
    }
  }

  /** A tag set in the answers is what that bucket of the region, listed by then, answered with. */
  lemma AnswersAreGenuine(w: World, d: S3.Config, e: S3Bucket.Entry)
    requires var (w1, names) := S3Bucket.RegionListing(w, d.region);
             names.Some? && S3Bucket.TagList(w1, names.value, []).1.Some?
             && e in S3Bucket.TagList(w1, names.value, []).1.value
    ensures var (w1, names) := S3Bucket.RegionListing(w, d.region);
            Sighted(e.bucket, w1.log, |w.log|) && exists k: nat :: Answered(w1, names.value, e, k)
  {
    hide S3Bucket.RegionListing, S3Bucket.TagList, Sighted;
    var (w1, names) := S3Bucket.RegionListing(w, d.region);
    TagListHoldsAnswers(w1, names.value, [], e);
    hide GetTagging;
    var k: nat :| Answered(w1, names.value, e, k);
    assert e.bucket in names.value;
  }

  /** A bucket of ours in the region, with these tags. */
  ghost predicate Tags(w: World, d: S3.Config, n: string, tags: seq<Tag>) {
    && n in w.Turn().order && w.Mine(n) && S3Bucket.RegionOf(w.cloud[n].location) == d.region
    && w.cloud[n].settings.tags == Some(tags)
  }

  /** In calm weather: a bucket is adopted if and only if some listed bucket of ours in the region names this
      cluster and some has the backup-location key, and the adopted one is such a bucket; otherwise a new name
      is proposed, and no bucket is touched. */
  lemma S3AdoptsExactly(w: World, inst: Instance, d: S3.Config)
    requires Calm(w) && ProposalsUnused(w) && inst.version + 1 == |w.saved| && !w.Mine("")
    ensures var r := S3.NameStep(w, inst, d);
            && r.ok && |r.w.saved| == |w.saved| + 1 && r.w.cloud == w.cloud
            && var s := Current(r.w);
            && (s.provisioned <==>
                  && (exists n, tags :: Tags(w, d, n, tags) && ForCluster(tags, d.infraName))
                  && (exists n, tags :: Tags(w, d, n, tags) && ForBackups(tags)))
            && if s.provisioned then
                 exists tags :: Tags(w, d, s.name, tags) && (ForCluster(tags, d.infraName) || ForBackups(tags))
               else "managed-velero-backups-" <= s.name && s.name !in w.cloud
  {
    hide S3.NameStep, S3Bucket.RegionListing, S3Bucket.TagList, BothAnswered, ForCluster, ForBackups, Occurs;
    var (w1, names) := S3Bucket.RegionListing(w, d.region);
    var (w2, tags) := S3Bucket.TagList(w1, names.value, []);
    CalmAnswers(w, d);
    S3NamesByAnswers(w, inst, d);
    S3CalmNameStep(w, inst, d);
    AnsweredMeans(w, d, tags.value);
  }

  /** The answers of calm weather are what the cloud holds. */
  ghost predicate Complete(w: World, d: S3.Config, es: seq<S3Bucket.Entry>) {
    && (forall e :: e in es ==> Tags(w, d, e.bucket, e.tags))
    && (forall n, tags :: Tags(w, d, n, tags) ==> S3Bucket.Entry(n, tags) in es)
  }

  lemma AnsweredMeans(w: World, d: S3.Config, es: seq<S3Bucket.Entry>)
    requires Complete(w, d, es)
    ensures BothAnswered(es, d.infraName) <==>
            && (exists n, tags :: Tags(w, d, n, tags) && ForCluster(tags, d.infraName))
            && (exists n, tags :: Tags(w, d, n, tags) && ForBackups(tags))
  {
    hide ForCluster, ForBackups, Tags;
    if exists n, tags :: Tags(w, d, n, tags) && ForCluster(tags, d.infraName) {
      var n, tags :| Tags(w, d, n, tags) && ForCluster(tags, d.infraName);
      assert S3Bucket.Entry(n, tags) in es;
    }
    if exists n, tags :: Tags(w, d, n, tags) && ForBackups(tags) {
      var n, tags :| Tags(w, d, n, tags) && ForBackups(tags);
      assert S3Bucket.Entry(n, tags) in es;
    }
  }

  lemma CalmAnswers(w: World, d: S3.Config)
    requires Calm(w) && !w.Mine("")
    ensures var (w1, names) := S3Bucket.RegionListing(w, d.region);
            && names.Some?
            && var (w2, tags) := S3Bucket.TagList(w1, names.value, []);
            && tags.Some? && w2.cloud == w.cloud && w2.saved == w.saved
            && Complete(w, d, tags.value) && Named(tags.value)
  {
    hide S3Bucket.InRegion, S3Bucket.TagList, S3Bucket.RegionOf;
    var w0 := List(w).0;
    var listed := List(w).1.value;
    CalmInRegion(w0, listed, d.region, []);
    var (w1, names) := S3Bucket.InRegion(w0, listed, d.region, []);
    CalmTagList(w1, names.value, []);
    var es := S3Bucket.TagList(w1, names.value, []).1.value;
    forall e | e in es ensures Tags(w, d, e.bucket, e.tags) {
      var i :| 0 <= i < |es| && es[i] == e;
      assert S3Bucket.HasKey(es, e.bucket);
    }
    forall n, tags | Tags(w, d, n, tags) ensures S3Bucket.Entry(n, tags) in es {
      assert n in listed && n in names.value;
      assert S3Bucket.HasKey(es, n);
      var i :| 0 <= i < |es| && es[i].bucket == n;
      assert es[i] == S3Bucket.Entry(n, tags);
    }
  }

  // ---- GCS ----

  /** In any weather: without a complete listing nothing is persisted; with one, a persisted name is an adopted
      one exactly when some listed bucket carries both labels, then of such a bucket, and otherwise a proposal
      that a lookup did not find. */
  lemma GcsNamesByAnswers(w: World, inst: Instance, d: Gcs.Config)
    ensures var r := Gcs.NameStep(w, inst, d);
            var (w1, listed) := GcsBucket.ListBuckets(w);
            if listed.None? then r == Reply(w1, inst, false)
            else (forall b :: b in listed.value ==> b.name != "") && r.w.saved != w.saved ==>
              && |r.w.saved| == |w.saved| + 1
              && var s := r.w.saved[|w.saved|];
              && s.lastSync == inst.status.lastSync
              && (s.provisioned <==> exists b :: b in listed.value && GcsBucket.CarriesLabels(b.labels, d.infraName))
              && if s.provisioned then
                   exists b :: b in listed.value && b.name == s.name && GcsBucket.CarriesLabels(b.labels, d.infraName)
                 else "managed-velero-backups-" <= s.name && Occurs(Missed(s.name), r.w.log, |w1.log|)
  {
    hide GcsBucket.ListBuckets, GcsBucket.FirstMatch, GcsBucket.CarriesLabels, AdoptOrPropose, Occurs;
    var (w1, listed) := GcsBucket.ListBuckets(w);
    if listed.Some? && forall b :: b in listed.value ==> b.name != "" {
      var m := GcsBucket.FirstMatch(listed.value, d.infraName);
      GcsBucket.FirstMatchIsFirst(listed.value, d.infraName);
      if m != "" {
        var i := GcsBucket.FirstMatchIsListed(listed.value, d.infraName);
        assert listed.value[i] in listed.value;
      }
      WhatIsPersisted(w1, inst, m);
    }
  }

  /** In calm weather: a bucket is adopted if and only if some listed bucket of the project carries both labels,
      and it is such a bucket; otherwise a new name is proposed. */
  lemma GcsAdoptsExactly(w: World, inst: Instance, d: Gcs.Config)
    requires Calm(w) && ProposalsUnused(w) && inst.version + 1 == |w.saved| && !w.Mine("")
    ensures var r := Gcs.NameStep(w, inst, d);
            && r.ok && |r.w.saved| == |w.saved| + 1 && r.w.cloud == w.cloud
            && var s := Current(r.w);
            && (s.provisioned <==>
                  exists n :: n in w.Turn().order && w.Mine(n)
                              && GcsBucket.CarriesLabels(w.cloud[n].settings.labels, d.infraName))
            && if s.provisioned then
                 w.Mine(s.name) && GcsBucket.CarriesLabels(w.cloud[s.name].settings.labels, d.infraName)
               else "managed-velero-backups-" <= s.name && s.name !in w.cloud
  {
    hide Gcs.NameStep, GcsBucket.CarriesLabels, GcsBucket.Pages, Occurs;
    var (w1, listed) := GcsBucket.ListBuckets(w);
    CalmPages(w, w.Turn().order, []);
    GcsNamesByAnswers(w, inst, d);
    GcsCalmNameStep(w, inst, d);
    forall n | n in w.Turn().order && w.Mine(n)
      ensures GcsBucket.Attrs(n, w.cloud[n].settings.labels) in listed.value
    {
    }
  }
}
