/** A bucket the operator created and tagged, or labelled, is found again from an empty status. */
module Recovery {
  import opened Options
  import opened Cloud
  import opened S3Bucket
  import opened Phases
  import opened Controller
  import opened OneBucket
  import opened Convergence
  import S3
  import Gcs
  import GcsBucket

  // ---- Listings while buckets vanish ----

  /** The world when the `k`-th of a series of read calls is made. */
  function After(w: World, k: nat): World
    decreases k
  {
    if k == 0 then w else After(w.Next(), k - 1)
  }

  /** At the `k`-th lookup the bucket is still there, and in the region. */
  ghost predicate Keeping(w: World, names: seq<string>, region: string, k: nat) {
    k < |names| &&
    var a := Locate(After(w, k), names[k]).1;
    a.At? && RegionOf(a.constraint) == region
  }

  /** `ks` is the subsequence of `names` at the increasing indices `ix`. */
  ghost predicate Picks(ix: seq<nat>, names: seq<string>, ks: seq<string>) {
    && |ix| == |ks|
    && (forall i :: 0 <= i < |ix| ==> ix[i] < |names| && names[ix[i]] == ks[i])
    && (forall i, j :: 0 <= i < j < |ix| ==> ix[i] < ix[j])
  }

  function Shifted(ix: seq<nat>, keep: bool): (r: seq<nat>)
    ensures forall k: nat :: k in r <==> (k == 0 && keep) || (k > 0 && k - 1 in ix)
    ensures |r| == |ix| + if keep then 1 else 0
  {
    var up := seq(|ix|, i requires 0 <= i < |ix| => ix[i] + 1);
    assert forall i :: 0 <= i < |ix| ==> up[i] == ix[i] + 1;
    (if keep then [0] else []) + up
  }

  lemma PicksShifted(ix: seq<nat>, names: seq<string>, ks: seq<string>, keep: bool)
    requires names != [] && Picks(ix, names[1..], ks)
    ensures Picks(Shifted(ix, keep), names, if keep then [names[0]] + ks else ks)
  {
  }

  lemma FirstLookup(w: World, names: seq<string>, region: string)
    requires names != []
    ensures Keeping(w, names, region, 0) <==>
            var a := Locate(w, names[0]).1; a.At? && RegionOf(a.constraint) == region
    ensures forall k: nat :: k > 0 ==> (Keeping(w, names, region, k) <==> Keeping(w.Next(), names[1..], region, k - 1))
  {
    hide Locate;
    assert forall k: nat :: 0 < k ==> After(w, k) == After(w.Next(), k - 1);
    assert forall k: nat :: 0 < k < |names| ==> names[k] == names[1..][k - 1];
  }

  lemma InRegionUnfolds(w: World, names: seq<string>, region: string, kept: seq<string>)
    requires names != [] && InRegion(w, names, region, kept).1.Some?
    ensures InRegion(w, names, region, kept).1 ==
            InRegion(w.Next(), names[1..], region,
              if Keeping(w, names, region, 0) then kept + [names[0]] else kept).1
  {
    FirstLookup(w, names, region);
  }

  /** `ks` are, in order, the buckets found in the region, at the indices `ix`. */
  ghost predicate Exactly(w: World, names: seq<string>, region: string, ix: seq<nat>, ks: seq<string>) {
    Picks(ix, names, ks) && forall k: nat :: k in ix <==> Keeping(w, names, region, k)
  }

  lemma KeepFirst(w: World, names: seq<string>, region: string, ix: seq<nat>, ks: seq<string>)
    requires names != [] && Keeping(w, names, region, 0) && Exactly(w.Next(), names[1..], region, ix, ks)
    ensures Exactly(w, names, region, Shifted(ix, true), [names[0]] + ks)
  {
    FirstLookup(w, names, region);
    PicksShifted(ix, names, ks, true);
    hide Keeping, Shifted, Picks;
  }

  lemma DropFirst(w: World, names: seq<string>, region: string, ix: seq<nat>, ks: seq<string>)
    requires names != [] && !Keeping(w, names, region, 0) && Exactly(w.Next(), names[1..], region, ix, ks)
    ensures Exactly(w, names, region, Shifted(ix, false), ks)
  {
    FirstLookup(w, names, region);
    PicksShifted(ix, names, ks, false);
    hide Keeping, Shifted, Picks;
  }

  /** An error-free listing is exactly the subsequence, in order, of the buckets that were still there when
      looked up and lie in the region. */
  lemma {:induction false} InRegionIsExact(w: World, names: seq<string>, region: string, kept: seq<string>)
    returns (ix: seq<nat>, ks: seq<string>)
    requires InRegion(w, names, region, kept).1.Some?
    ensures InRegion(w, names, region, kept).1.value == kept + ks && Exactly(w, names, region, ix, ks)
    decreases |names|
  {
    hide Locate;
    if names == [] {
      ix, ks := [], [];
      assert kept + ks == kept;
    } else {
      InRegionUnfolds(w, names, region, kept);
      hide *;
      if Keeping(w, names, region, 0) {
        ix, ks := InRegionIsExact(w.Next(), names[1..], region, kept + [names[0]]);
        KeepFirst(w, names, region, ix, ks);
        assert kept + [names[0]] + ks == kept + ([names[0]] + ks);
        ix, ks := Shifted(ix, true), [names[0]] + ks;
      } else {
        ix, ks := InRegionIsExact(w.Next(), names[1..], region, kept);
        DropFirst(w, names, region, ix, ks);
        ix := Shifted(ix, false);
      }
    }
  }

  /** Any answer but "gone" or a location makes the whole listing fail, and nothing else does. */
  lemma {:induction false} InRegionFailsExactly(w: World, names: seq<string>, region: string, kept: seq<string>)
    ensures InRegion(w, names, region, kept).1.Some? <==>
            forall k: nat :: k < |names| ==> !Locate(After(w, k), names[k]).1.NotLocated?
    decreases |names|
  {
    if names != [] {
      AfterFirst(w, names);
      var a := Locate(w, names[0]).1;
      var kept' := if a.At? && RegionOf(a.constraint) == region then kept + [names[0]] else kept;
      InRegionFailsExactly(w.Next(), names[1..], region, kept');
      assert InRegion(w, names, region, kept).1 ==
             if a.NotLocated? then None else InRegion(w.Next(), names[1..], region, kept').1;
      hide InRegion, Locate;
      assert a.NotLocated? <==> Locate(After(w, 0), names[0]).1.NotLocated?;
    }
  }

  lemma AfterFirst(w: World, names: seq<string>)
    requires names != []
    ensures forall k: nat :: 0 < k < |names| ==> After(w, k) == After(w.Next(), k - 1) && names[k] == names[1..][k - 1]
    ensures forall k: nat :: k < |names[1..]| ==> After(w, k + 1) == After(w.Next(), k) && names[k + 1] == names[1..][k]
  {
  }

  ghost predicate TaggedAt(w: World, names: seq<string>, name: string, k: nat) {
    k < |names| && names[k] == name && GetTagging(After(w, k), name).1.TagSet?
  }

  /** An error-free tag list has a key for exactly those buckets that still existed and had a tag set when
      they were asked. */
  lemma {:induction false} TagListIsExact(w: World, names: seq<string>, es: seq<Entry>, name: string)
    requires TagList(w, names, es).1.Some?
    ensures HasKey(TagList(w, names, es).1.value, name) <==>
            HasKey(es, name) || exists k: nat :: TaggedAt(w, names, name, k)
    decreases |names|
  {
    if names != [] {
      hide GetTagging;
      var a := GetTagging(w, names[0]).1;
      var es' := if a.TagSet? then Store(es, Entry(names[0], a.tags), w.Turn().slot) else es;
      TagListUnfolds(w, names, es);
      hide TagList, Store;
      TagListIsExact(w.Next(), names[1..], es', name);
      assert forall k: nat :: TaggedAt(w.Next(), names[1..], name, k) ==> TaggedAt(w, names, name, k + 1);
      assert forall k: nat :: k > 0 && TaggedAt(w, names, name, k) ==> TaggedAt(w.Next(), names[1..], name, k - 1);
      assert TaggedAt(w, names, name, 0) <==> names[0] == name && a.TagSet?;
    }
  }

  lemma {:induction false} TagListFailsExactly(w: World, names: seq<string>, es: seq<Entry>)
    ensures TagList(w, names, es).1.Some? <==>
            forall k: nat :: k < |names| ==> !GetTagging(After(w, k), names[k]).1.NotTagged?
    decreases |names|
  {
    if names != [] {
      AfterFirst(w, names);
      var a := GetTagging(w, names[0]).1;
      var es' := if a.TagSet? then Store(es, Entry(names[0], a.tags), w.Turn().slot) else es;
      TagListFailsExactly(w.Next(), names[1..], es');
      hide Store;
      assert TagList(w, names, es).1 == if a.NotTagged? then None else TagList(w.Next(), names[1..], es').1;
      hide TagList, GetTagging;
      assert a.NotTagged? <==> GetTagging(After(w, 0), names[0]).1.NotTagged?;
    }
  }

  /** Every tag set in the list is one that the bucket it is listed for answered with. */
  lemma {:induction false} TagListHoldsAnswers(w: World, names: seq<string>, es: seq<Entry>, e: Entry)
    requires TagList(w, names, es).1.Some? && e in TagList(w, names, es).1.value
    ensures e in es || exists k: nat :: Answered(w, names, e, k)
    decreases |names|
  {
    if names != [] {
      TagListUnfolds(w, names, es);
      hide GetTagging, TagList;
      var a := GetTagging(w, names[0]).1;
      var es' := if a.TagSet? then Store(es, Entry(names[0], a.tags), w.Turn().slot) else es;
      TagListHoldsAnswers(w.Next(), names[1..], es', e);
      assert forall k: nat :: Answered(w.Next(), names[1..], e, k) ==> Answered(w, names, e, k + 1);
      if e in es' && e !in es {
        StoreIsExact(es, Entry(names[0], a.tags), w.Turn().slot, e);
        assert Answered(w, names, e, 0);
      }
    }
  }

  ghost predicate Answered(w: World, names: seq<string>, e: Entry, k: nat) {
    k < |names| && names[k] == e.bucket && GetTagging(After(w, k), e.bucket).1 == TagSet(e.tags)
  }

  lemma TagListUnfolds(w: World, names: seq<string>, es: seq<Entry>)
    requires names != [] && TagList(w, names, es).1.Some?
    ensures var a := GetTagging(w, names[0]).1;
            TagList(w, names, es).1 ==
            TagList(w.Next(), names[1..],
              if a.TagSet? then Store(es, Entry(names[0], a.tags), w.Turn().slot) else es).1
  {
    hide Store;
  }

  // ---- The round trip ----

  lemma {:induction false} CalmInRegion(w: World, names: seq<string>, region: string, kept: seq<string>)
    requires Calm(w) && forall n :: n in names ==> w.Mine(n)
    ensures InRegion(w, names, region, kept).1.Some?
    ensures forall n :: n in InRegion(w, names, region, kept).1.value <==>
              n in kept || (n in names && RegionOf(w.cloud[n].location) == region)
    decreases |names|
  {
    if names != [] {
      var n0 := names[0];
      assert n0 in names && forall n :: n in names <==> n == n0 || n in names[1..];
      CalmInRegion(w.Next(), names[1..], region,
        if RegionOf(w.cloud[n0].location) == region then kept + [n0] else kept);
    }
  }

  /** The entries hold what the cloud holds. */
  ghost predicate Faithful(es: seq<Entry>, w: World) {
    forall i :: 0 <= i < |es| ==>
      w.Mine(es[i].bucket) && w.cloud[es[i].bucket].settings.tags == Some(es[i].tags)
  }

  lemma StoreFaithful(es: seq<Entry>, e: Entry, slot: nat, w: World)
    requires Faithful(es, w) && w.Mine(e.bucket) && w.cloud[e.bucket].settings.tags == Some(e.tags)
    ensures Faithful(Store(es, e, slot), w)
  {
  }

  lemma {:induction false} CalmTagList(w: World, names: seq<string>, es: seq<Entry>)
    requires Calm(w) && Faithful(es, w) && forall n :: n in names ==> w.Mine(n)
    ensures var r := TagList(w, names, es).1;
            && r.Some? && Faithful(r.value, w)
            && forall n :: HasKey(r.value, n) <==>
                 HasKey(es, n) || (n in names && w.cloud[n].settings.tags.Some?)
    decreases |names|
  {
    hide Store;
    if names != [] {
      var n0 := names[0];
      assert n0 in names && forall n :: n in names <==> n == n0 || n in names[1..];
      var a := GetTagging(w, n0).1;
      assert w.Next().cloud == w.cloud && Calm(w.Next());
      if a.TagSet? {
        StoreFaithful(es, Entry(n0, a.tags), w.Turn().slot, w);
        CalmTagList(w.Next(), names[1..], Store(es, Entry(n0, a.tags), w.Turn().slot));
      } else {
        CalmTagList(w.Next(), names[1..], es);
      }
    }
  }

  /** `name` is a bucket of this cluster in this region, and no other bucket of the account there carries
      either of the operator's tags. */
  ghost predicate Recoverable(w: World, name: string, d: S3.Config) {
    && name != "" && w.Mine(name) && RegionOf(w.cloud[name].location) == d.region
    && w.cloud[name].settings.tags.Some? && AreOurTags(w.cloud[name].settings.tags.value, d.infraName)
    && forall n :: n != name && w.Mine(n) && RegionOf(w.cloud[n].location) == d.region
                   && w.cloud[n].settings.tags.Some?
         ==> !Carries(Entry(n, w.cloud[n].settings.tags.value), d.infraName)
  }

  lemma OnlyOursMatches(es: seq<Entry>, w: World, name: string, d: S3.Config)
    requires Faithful(es, w) && Recoverable(w, name, d) && HasKey(es, name)
    requires forall n :: HasKey(es, n) ==> w.Mine(n) && RegionOf(w.cloud[n].location) == d.region
    ensures Match(es, d.infraName) == name
  {
    var i :| 0 <= i < |es| && es[i].bucket == name;
    OurTagsMatch(es[i].tags, d.infraName);
    assert Carries(es[i], d.infraName);
    var k := LastCarrierIsLast(es, d.infraName);
    assert HasKey(es, es[k].bucket);
    assert es[k] == Entry(es[k].bucket, w.cloud[es[k].bucket].settings.tags.value);
  }

  lemma OurTagsMatch(tags: seq<Tag>, infraName: string)
    requires AreOurTags(tags, infraName)
    ensures HasClusterTag(tags, infraName) && HasVeleroTag(tags)
  {
    var i := if tags[0].key == TAG_INFRA_NAME then 0 else 1;
    assert tags[i] == Tag(TAG_INFRA_NAME, infraName) && tags[1 - i].key == TAG_BACKUP_LOCATION;
  }

  /** From an empty status, with a complete listing in any order, that bucket is found again. */
  lemma S3Recovers(w: World, inst: Instance, name: string, d: S3.Config)
    requires Calm(w) && inst.version + 1 == |w.saved| && name in w.Turn().order
    requires Recoverable(w, name, d)
    ensures var r := S3.NameStep(w, inst, d);
            && r.ok && r.inst == Instance(Status(name, true, inst.status.lastSync), |w.saved|)
            && r.w.saved == w.saved + [r.inst.status] && Calm(r.w) && r.w.cloud == w.cloud && w.clock <= r.w.clock
  {
    hide AdoptOrPropose, InRegion, TagList, Match, Carries, AreOurTags;
    var (w0, listed) := List(w);
    assert w0.cloud == w.cloud && Calm(w0) && listed == Some(Own(w.Next(), w.Turn().order));
    var names := listed.value;
    CalmInRegion(w0, names, d.region, []);
    var (w1, ks) := InRegion(w0, names, d.region, []);
    CalmTagList(w1, ks.value, []);
    var (w2, es) := TagList(w1, ks.value, []);
    OnlyOursMatches(es.value, w, name, d);
    Recovered(w, w2, inst, name);
  }

  /** So a lost status costs one reconcile: that bucket is adopted and fully enforced at once. */
  lemma S3RecoversAtOnce(w: World, infra: Infrastructure, d: S3.Config, name: string)
    requires Calm(w) && |w.saved| > 0 && Current(w).name == "" && NewDriver(infra) == Some(AwsDriver(d))
    requires Recoverable(w, name, d) && name in w.turns(w.pos + 2).order
    ensures var (w', ok) := ReconcileStep(w, infra);
            ok && S3Synced(w', d.infraName, w.clock) && Current(w').name == name
  {
    hide ReconcileStep, S3.NameStep, S3.VerifyStep, S3Synced, Recoverable;
    var w1, inst := CalmReconcile(w, infra, AwsDriver(d));
    assert Recoverable(w1, name, d) by { RecoverableIn(w, w1, name, d); }
    S3Recovers(w1, inst, name, d);
    var r := S3.NameStep(w1, inst, d);
    assert r.w.Mine(name) && name != "" by { RecoverableIn(w, w1, name, d); }
    S3CalmVerify(r.w, r.inst, d);
    SyncedSince(S3.VerifyStep(r.w, r.inst, d).w, d.infraName, r.w.clock, w.clock);
  }

  lemma RecoverableIn(w: World, w1: World, name: string, d: S3.Config)
    requires Recoverable(w, name, d) && w1.cloud == w.cloud
    ensures Recoverable(w1, name, d) && w.Mine(name) && name != ""
  {
  }

  lemma Recovered(w: World, w2: World, inst: Instance, name: string)
    requires Calm(w2) && w2.saved == w.saved && w2.cloud == w.cloud && w.clock <= w2.clock
    requires inst.version + 1 == |w.saved| && name != ""
    ensures var r := AdoptOrPropose(w2, inst, name);
            && r.ok && r.inst == Instance(Status(name, true, inst.status.lastSync), |w.saved|)
            && r.w.saved == w.saved + [r.inst.status] && Calm(r.w) && r.w.cloud == w.cloud && w.clock <= r.w.clock
  {
    hide Saving;
    CalmSave(w2, inst.(status := Status(name, true, inst.status.lastSync)));
  }

  /** Create, tag, forget, recover: in every region, with or without a location constraint, and for every
      infrastructure name. */
  lemma CreatedBucketIsRecovered(w: World, name: string, d: S3.Config, w': World, inst: Instance)
    requires Calm(w) && name !in w.cloud && name != ""
    requires forall n :: w.Mine(n) && RegionOf(w.cloud[n].location) == d.region && w.cloud[n].settings.tags.Some?
               ==> !Carries(Entry(n, w.cloud[n].settings.tags.value), d.infraName)
    requires w'.cloud == Tagged(Create(w, name, NewBucket(d.region)).0, name, d.infraName).0.cloud
    requires Calm(w') && inst.version + 1 == |w'.saved| && name in w'.Turn().order
    ensures Create(w, name, NewBucket(d.region)).1.Fresh?
    ensures Tagged(Create(w, name, NewBucket(d.region)).0, name, d.infraName).1
    ensures S3.NameStep(w', inst, d).inst.status == Status(name, true, inst.status.lastSync)
    ensures S3.NameStep(w', inst, d).ok
  {
    hide Create, Tagged, S3.NameStep, AreOurTags, Carries;
    CalmCreate(w, name, NewBucket(d.region));
    var w1 := Create(w, name, NewBucket(d.region)).0;
    S3CalmTagged(w1, name, d.infraName);
    S3Recovers(w', inst, name, d);
  }

  // ---- The same on GCS ----

  /** `name` carries this cluster's labels and no other bucket of the project does. */
  ghost predicate GcsRecoverable(w: World, name: string, infraName: string) {
    && name != "" && w.Mine(name) && GcsBucket.CarriesLabels(w.cloud[name].settings.labels, infraName)
    && forall n :: n != name && w.Mine(n) ==> !GcsBucket.CarriesLabels(w.cloud[n].settings.labels, infraName)
  }

  lemma {:induction false} SoleMatchIsFirst(buckets: seq<GcsBucket.Attrs>, infraName: string, k: nat)
    requires k < |buckets| && GcsBucket.CarriesLabels(buckets[k].labels, infraName)
    requires forall i :: 0 <= i < |buckets| && GcsBucket.CarriesLabels(buckets[i].labels, infraName)
               ==> buckets[i].name == buckets[k].name
    ensures GcsBucket.FirstMatch(buckets, infraName) == buckets[k].name
  {
    GcsBucket.MatchMeans(buckets[0].labels, infraName);
    hide GcsBucket.CarriesLabels, GcsBucket.LabelsMatch;
    if !GcsBucket.CarriesLabels(buckets[0].labels, infraName) {
      assert forall i :: 0 < i < |buckets| ==> buckets[i] == buckets[1..][i - 1];
      SoleMatchIsFirst(buckets[1..], infraName, k - 1);
    }
  }

  /** The answer to the `k`-th step of the iterator; the last step finds that there is no more. */
  function StepAt(w: World, names: seq<string>, k: nat): GcsBucket.Iterated {
    GcsBucket.NextItem(After(w, k), if k < |names| then Some(names[k]) else None).1
  }

  lemma LaterSteps(w: World, names: seq<string>)
    requires names != []
    ensures StepAt(w, names, 0) == GcsBucket.NextItem(w, Some(names[0])).1
    ensures forall k: nat :: k > 0 ==> StepAt(w, names, k) == StepAt(w.Next(), names[1..], k - 1)
    ensures forall k: nat {:trigger StepAt(w.Next(), names[1..], k)} ::
              StepAt(w.Next(), names[1..], k) == StepAt(w, names, k + 1)
  {
    hide GcsBucket.NextItem;
    assert forall k: nat :: 0 < k < |names| ==> names[k] == names[1..][k - 1];
  }

  /** A listing fails exactly when one of its steps does; otherwise it holds exactly what they yielded. */
  lemma {:induction false} PagesAreExact(w: World, names: seq<string>, got: seq<GcsBucket.Attrs>, b: GcsBucket.Attrs)
    ensures var r := GcsBucket.Pages(w, names, got).1;
            && (r.Some? <==> forall k: nat :: k <= |names| ==> !StepAt(w, names, k).Broken?)
            && (r.Some? ==> (b in r.value <==>
                  b in got || exists k: nat :: k < |names| && StepAt(w, names, k) == GcsBucket.Item(b)))
    decreases |names|
  {
    if names == [] {
      assert StepAt(w, names, 0) == GcsBucket.NextItem(w, None).1;
    } else {
      var a := GcsBucket.NextItem(w, Some(names[0])).1;
      var got' := if a.Item? then got + [a.bucket] else got;
      PagesAreExact(w.Next(), names[1..], got', b);
      PagesUnfolds(w, names, got);
      LaterSteps(w, names);
      hide GcsBucket.Pages, StepAt, GcsBucket.NextItem;
    }
  }

  lemma PagesUnfolds(w: World, names: seq<string>, got: seq<GcsBucket.Attrs>)
    requires names != []
    ensures var a := GcsBucket.NextItem(w, Some(names[0])).1;
            GcsBucket.Pages(w, names, got).1 ==
            if a.Broken? then None
            else GcsBucket.Pages(w.Next(), names[1..], if a.Item? then got + [a.bucket] else got).1
  {
  }

  lemma {:induction false} CalmPages(w: World, names: seq<string>, got: seq<GcsBucket.Attrs>)
    requires Calm(w)
    ensures var r := GcsBucket.Pages(w, names, got).1;
            r.Some? && forall b :: b in r.value <==>
              b in got || (b.name in names && w.Mine(b.name) && b.labels == w.cloud[b.name].settings.labels)
    decreases |names|
  {
    if names != [] {
      hide GcsBucket.NextItem;
      var n := names[0];
      assert forall m :: m in names <==> m == n || m in names[1..];
      var (w1, a) := GcsBucket.NextItem(w, Some(n));
      CalmPages(w1, names[1..], if a.Item? then got + [a.bucket] else got);
    }
  }

  /** From an empty status, with a complete listing in any order, that bucket is adopted again. */
  lemma GcsRecovers(w: World, inst: Instance, name: string, d: Gcs.Config)
    requires Calm(w) && inst.version + 1 == |w.saved| && name in w.Turn().order
    requires GcsRecoverable(w, name, d.infraName)
    ensures var r := Gcs.NameStep(w, inst, d);
            r.ok && r.inst.status == Status(name, true, inst.status.lastSync) && r.w.saved == w.saved + [r.inst.status]
  {
    hide AdoptOrPropose, GcsBucket.FirstMatch, GcsBucket.CarriesLabels, GcsBucket.Pages;
    var (w1, listed) := GcsBucket.ListBuckets(w);
    CalmPages(w, w.Turn().order, []);
    var k :| 0 <= k < |listed.value| && listed.value[k] == GcsBucket.Attrs(name, w.cloud[name].settings.labels);
    forall i | 0 <= i < |listed.value| && GcsBucket.CarriesLabels(listed.value[i].labels, d.infraName)
      ensures listed.value[i].name == name
    {
      assert listed.value[i] in listed.value;
    }
    SoleMatchIsFirst(listed.value, d.infraName, k);
    Recovered(w, w1, inst, name);
  }

  /** Creation alone is enough on GCS, where the labels are part of it; and whatever labels a bucket had,
      enforcement makes it recoverable. */
  lemma GcsCreatedBucketIsRecovered(w: World, name: string, d: Gcs.Config, w': World, inst: Instance)
    requires Calm(w) && name != "" && !w.Theirs(name)
    requires forall n :: n != name && w.Mine(n) ==> !GcsBucket.CarriesLabels(w.cloud[n].settings.labels, d.infraName)
    requires w'.cloud == if w.Mine(name) then Put(w, name, MergeLabels(GcsBucket.OurLabels(d.infraName))).0.cloud
                         else Create(w, name, GcsBucket.NewBucket(d.region, d.infraName)).0.cloud
    requires Calm(w') && inst.version + 1 == |w'.saved| && name in w'.Turn().order
    ensures Gcs.NameStep(w', inst, d).inst.status == Status(name, true, inst.status.lastSync)
    ensures Gcs.NameStep(w', inst, d).ok
  {
    hide Create, Put, Gcs.NameStep, GcsBucket.CarriesLabels, GcsBucket.OurLabels;
    var labels := GcsBucket.OurLabels(d.infraName);
    if w.Mine(name) {
      CalmPut(w, name, MergeLabels(labels));
      GcsBucket.MergedLabelsMatch(w.cloud[name].settings, d.infraName, d.infraName);
    } else {
      CalmCreate(w, name, GcsBucket.NewBucket(d.region, d.infraName));
      GcsBucket.MergedLabelsMatch(NO_SETTINGS, d.infraName, d.infraName);
      assert NO_SETTINGS.labels + labels == labels;
    }
    GcsRecovers(w', inst, name, d);
  }
}
