/** What happens once faults and outside interference stop, from any state they may have left behind. */
module Convergence {
  import opened Options
  import opened Cloud
  import opened Phases
  import opened Controller
  import opened Safety
  import opened OneBucket
  import opened Ownership
  import S3
  import S3Bucket
  import Gcs
  import GcsBucket

  // ---- Calls in calm weather ----

  lemma CalmLasts(w: World, w': World)
    requires Calm(w) && w'.turns == w.turns && w.pos <= w'.pos
    ensures Calm(w')
  {
  }

  lemma CalmHead(w: World, name: string)
    requires Calm(w)
    ensures var (w', a) := Head(w, name);
            && w'.cloud == w.cloud && Calm(w')
            && a == if name !in w.cloud then Absent else if w.Mine(name) then Found else Failed
  {
  }

  lemma CalmPut(w: World, name: string, c: Change)
    requires Calm(w) && w.Mine(name)
    ensures var (w', ok) := Put(w, name, c);
            var b := w.cloud[name];
            ok && Calm(w') && w'.cloud == w.cloud[name := b.(settings := Applied(b.settings, c))]
  {
  }

  lemma CalmCreate(w: World, name: string, b: Bucket)
    requires Calm(w) && b.owner.Self?
    ensures var (w', a) := Create(w, name, b);
            && Calm(w')
            && a == (if name !in w.cloud then Fresh else if w.Mine(name) then Yours else Taken)
            && w'.cloud == if name in w.cloud then w.cloud else w.cloud[name := b]
  {
  }

  lemma CalmSave(w: World, inst: Instance)
    requires Calm(w) && inst.version + 1 == |w.saved|
    ensures var r := Saving(w, inst);
            && r.ok && r.inst == Instance(inst.status, |w.saved|) && Calm(r.w)
            && r.w.saved == w.saved + [inst.status] && r.w.cloud == w.cloud && w.clock <= r.w.clock
            && r.w.turns == w.turns && w.pos <= r.w.pos
  {
  }

  /** A calm reconcile works on the latest status. */
  lemma CalmReconcile(w: World, infra: Infrastructure, d: DriverConfig) returns (w1: World, inst: Instance)
    requires Calm(w) && |w.saved| > 0 && NewDriver(infra) == Some(d)
    ensures Calm(w1) && w1.turns == w.turns && w.pos <= w1.pos && w.clock <= w1.clock
    ensures w1.cloud == w.cloud && w1.saved == w.saved && w1.log == w.log
    ensures w1.pos == w.pos + 2 && w1.clock == w.clock + w.Turn().tick + w.Next().Turn().tick
    ensures inst == Instance(Current(w), |w.saved| - 1)
    ensures ReconcileStep(w, infra) == Gate(w1, inst, d)
  {
    hide Gate;
    inst := Instance(Current(w), |w.saved| - 1);
    w1 := Ping(Load(w).0).0;
  }

  /** The gate, seen from outside: a calm reconcile reaches Velero's objects, without touching the buckets,
      exactly when the status is still fresh at the time it is looked at. */
  lemma CalmReconcileProvisions(w: World, infra: Infrastructure, d: DriverConfig)
    requires Calm(w) && |w.saved| > 0 && NewDriver(infra) == Some(d)
    ensures var w' := ReconcileStep(w, infra).0;
            var now := w.clock + w.Turn().tick + w.Next().Turn().tick;
            (w'.log == w.log + [Provisioning(Current(w), now)] && w'.cloud == w.cloud && w'.saved == w.saved)
            <==> Current(w).name != "" && Current(w).provisioned && Current(w).lastSync.Some?
                 && now <= Current(w).lastSync.value + 60 * 60
  {
    hide ReconcileStep, StorageStep, Call;
    var w1, inst := CalmReconcile(w, infra, d);
    var r := StorageStep(w1, inst, d);
    StorageStepIsCall(w1, inst, d);
    CallExtends(d.Platform(), d.InfraName(), w1, inst, r);
    assert |r.w.log| > |w.log| ==> !r.w.log[|w.log|].Provisioning?;
  }

  // ---- S3 ----

  /** The status records a complete sync since `since` and the bucket has every setting. */
  ghost predicate S3Synced(w: World, infraName: string, since: nat) {
    && |w.saved| > 0
    && var s := Current(w);
    && s.name != "" && s.provisioned && s.lastSync.Some? && since <= s.lastSync.value <= w.clock
    && w.Mine(s.name)
    && var b := w.cloud[s.name].settings;
    && b.encryption == Some("AES256") && b.publicAccess == PublicAccess(true, true, true, true)
    && b.lifecycle == [LifecycleRule("Backup Expiry", "backups/", 90)]
    && b.tags.Some? && S3Bucket.AreOurTags(b.tags.value, infraName)
  }

  /** The call ended well on an unchanged cloud, persisting just `s`. */
  ghost predicate Left(w: World, r: Reply, s: Status) {
    && r.ok && Calm(r.w) && r.w.turns == w.turns && w.pos <= r.w.pos && w.clock <= r.w.clock
    && r.w.cloud == w.cloud && r.w.saved == w.saved + [s] && r.inst == Instance(s, |w.saved|)
  }

  lemma S3CalmTagged(w: World, name: string, infraName: string)
    requires Calm(w) && w.Mine(name)
    ensures var (w', ok) := S3Bucket.Tagged(w, name, infraName);
            && ok && Calm(w') && w'.Mine(name) && w'.saved == w.saved && w.clock <= w'.clock
            && w'.cloud[name].location == w.cloud[name].location
            && var b, b' := w.cloud[name].settings, w'.cloud[name].settings;
            && b'.tags.Some? && S3Bucket.AreOurTags(b'.tags.value, infraName) && b' == b.(tags := b'.tags)
            && w'.cloud == w.cloud[name := w.cloud[name].(settings := b')]
  {
    hide Put, S3Bucket.AreOurTags;
    CalmPut(w, name, ClearTags);
    var w1 := Put(w, name, ClearTags).0;
    CalmPut(w1, name, PutTags(S3Bucket.OurTags(infraName, w1.Turn().slot)));
  }

  lemma S3CalmEnforce(w: World, inst: Instance, d: S3.Config)
    requires Calm(w) && w.Mine(inst.status.name) && inst.status.name != "" && inst.version + 1 == |w.saved|
    ensures var r := S3.EnforceStep(w, inst, d);
            r.ok && Calm(r.w) && S3Synced(r.w, d.infraName, w.clock) && Current(r.w).name == inst.status.name
  {
    hide Put, S3Bucket.Tagged, Saving, S3Bucket.AreOurTags;
    var n := inst.status.name;
    CalmPut(w, n, Encrypt);
    var w1 := Put(w, n, Encrypt).0;
    CalmPut(w1, n, BlockPublicAccess);
    var w2 := Put(w1, n, BlockPublicAccess).0;
    CalmPut(w2, n, SetLifecycle);
    var w3 := Put(w2, n, SetLifecycle).0;
    S3CalmTagged(w3, n, d.infraName);
    var w4 := S3Bucket.Tagged(w3, n, d.infraName).0;
    CalmSave(w4, inst.(status := Status(n, true, Some(w4.clock))));
  }

  lemma S3CalmVerify(w: World, inst: Instance, d: S3.Config)
    requires Calm(w) && inst.status.name != "" && inst.version + 1 == |w.saved|
    ensures var r := S3.VerifyStep(w, inst, d);
            && (w.Mine(inst.status.name) ==>
                  && r.ok && Calm(r.w) && S3Synced(r.w, d.infraName, w.clock)
                  && Current(r.w).name == inst.status.name)
            && (inst.status.name !in w.cloud ==> Left(w, r, inst.status.(provisioned := false)))
            && (w.Theirs(inst.status.name) ==> !r.ok && r.w.saved == w.saved && r.w.cloud == w.cloud)
  {
    hide Head, Saving, S3.EnforceStep, S3Synced;
    CalmHead(w, inst.status.name);
    var w1 := Head(w, inst.status.name).0;
    if w.Mine(inst.status.name) {
      S3CalmEnforce(w1, inst, d);
      SyncedSince(S3.EnforceStep(w1, inst, d).w, d.infraName, w1.clock, w.clock);
    } else if inst.status.name !in w.cloud {
      CalmSave(w1, inst.(status := inst.status.(provisioned := false)));
    }
  }

  lemma SyncedSince(w: World, infraName: string, since: nat, earlier: nat)
    requires S3Synced(w, infraName, since) && earlier <= since
    ensures S3Synced(w, infraName, earlier)
  {
  }

  /** No name that will be proposed is in use. */
  ghost predicate ProposalsUnused(w: World) {
    forall i: nat :: w.pos <= i ==> BUCKET_PREFIX + w.turns(i).uuid !in w.cloud
  }

  lemma CalmAdoptOrPropose(w: World, inst: Instance, existing: string)
    requires Calm(w) && ProposalsUnused(w) && inst.version + 1 == |w.saved|
    ensures var r := AdoptOrPropose(w, inst, existing);
            && |r.w.saved| == |w.saved| + 1
            && var s := Current(r.w);
            && Left(w, r, s) && s.lastSync == inst.status.lastSync && s.name != ""
            && if existing != "" then s.name == existing && s.provisioned
               else s.name !in w.cloud && !s.provisioned
  {
    hide Head, Saving;
    if existing != "" {
      CalmSave(w, inst.(status := Status(existing, true, inst.status.lastSync)));
    } else {
      var proposed := BUCKET_PREFIX + w.Turn().uuid;
      CalmHead(w, proposed);
      CalmSave(Head(w, proposed).0, inst.(status := Status(proposed, false, inst.status.lastSync)));
    }
  }

  /** Discovery without faults ends with the name of a bucket of ours, or with a fresh proposal. */
  lemma S3CalmNameStep(w: World, inst: Instance, d: S3.Config)
    requires Calm(w) && ProposalsUnused(w) && inst.version + 1 == |w.saved|
    ensures var r := S3.NameStep(w, inst, d);
            && |r.w.saved| == |w.saved| + 1
            && var s := Current(r.w);
            && Left(w, r, s) && s.lastSync == inst.status.lastSync && s.name != ""
            && if s.provisioned then w.Mine(s.name) else s.name !in w.cloud
  {
    hide AdoptOrPropose, S3Bucket.InRegion, S3Bucket.TagList, S3Bucket.Match;
    var (w0, listed) := List(w);
    var (w1, names) := S3Bucket.RegionListing(w, d.region);
    assert listed.Some? && names.Some? && Calm(w1) && w1.cloud == w.cloud;
    var (w2, tags) := S3Bucket.TagList(w1, names.value, []);
    assert Calm(w2);
    var existing := S3Bucket.Match(tags.value, d.infraName);
    S3Bucket.MatchIsListed(tags.value, d.infraName);
    CalmAdoptOrPropose(w2, inst, existing);
  }

  /** How many calm reconciles S3 may still need, by what the status says and who holds the bucket. */
  ghost function S3Rank(w: World): nat
    requires |w.saved| > 0
  {
    var s := Current(w);
    if s.name == "" then 2
    else if w.Mine(s.name) then 1
    else if s.name !in w.cloud then (if s.provisioned then 2 else 1)
    else 3
  }

  /** A status marked provisioned whose bucket now belongs to somebody else. */
  ghost predicate Hijacked(w: World) {
    |w.saved| > 0 && Current(w).provisioned && Current(w).name != "" && w.Theirs(Current(w).name)
  }

  lemma S3CalmCreateStep(w: World, inst: Instance, d: S3.Config)
    requires Calm(w) && inst.status.name != "" && !inst.status.provisioned && inst.version + 1 == |w.saved|
    ensures var r := S3.CreateStep(w, inst, d);
            if w.Theirs(inst.status.name) then Left(w, r, inst.status.(name := ""))
            else r.ok && Calm(r.w) && S3Synced(r.w, d.infraName, w.clock)
  {
    hide Create, Saving, S3Bucket.Tagged, S3.VerifyStep, S3Synced;
    var b := S3Bucket.NewBucket(d.region);
    CalmCreate(w, inst.status.name, b);
    var (w1, a) := Create(w, inst.status.name, b);
    if a.Taken? {
      CalmSave(w1, inst.(status := inst.status.(name := "")));
    } else {
      S3CalmTagged(w1, inst.status.name, d.infraName);
      var w2 := S3Bucket.Tagged(w1, inst.status.name, d.infraName).0;
      S3CalmVerify(w2, inst, d);
      SyncedSince(S3.VerifyStep(w2, inst, d).w, d.infraName, w2.clock, w.clock);
    }
  }

  /** Progress left to be made: the gate is open, nothing is hijacked, proposals are still unused. */
  ghost predicate S3Pending(w: World) {
    && Calm(w) && |w.saved| > 0 && !Hijacked(w) && ProposalsUnused(w)
    && StorageBucketReconcileRequired(Current(w), w.clock)
  }

  lemma S3CalmStorage(w: World, inst: Instance, d: S3.Config)
    requires S3Pending(w) && inst == Instance(Current(w), |w.saved| - 1)
    ensures var r := S3.StorageStep(w, inst, d);
            && r.ok && Calm(r.w)
            && (S3Synced(r.w, d.infraName, w.clock)
                || (S3Pending(r.w) && S3Rank(r.w) < S3Rank(w) && r.w.cloud == w.cloud))
  {
    hide S3.NameStep, S3.VerifyStep, S3.CreateStep, S3Synced;
    var s := inst.status;
    if s.name == "" {
      S3CalmNameStep(w, inst, d);
      var r := S3.NameStep(w, inst, d);
      S3CalmVerify(r.w, r.inst, d);
      if w.Mine(r.inst.status.name) {
        SyncedSince(S3.VerifyStep(r.w, r.inst, d).w, d.infraName, r.w.clock, w.clock);
      }
    } else if s.provisioned {
      S3CalmVerify(w, inst, d);
    } else {
      S3CalmCreateStep(w, inst, d);
    }
  }

  /** S3 falls through from naming: a bucket found is enforced in the same reconcile, and a name proposed is
      looked up, not found, and persisted a second time. */
  lemma S3UnnamedFallsThrough(w: World, infra: Infrastructure, d: S3.Config)
    requires Calm(w) && ProposalsUnused(w) && NewDriver(infra) == Some(AwsDriver(d))
    requires |w.saved| > 0 && Current(w).name == ""
    ensures var w' := ReconcileStep(w, infra).0;
            S3Synced(w', d.infraName, w.clock)
            || exists s: Status :: s.name != "" && s.name !in w.cloud && !s.provisioned
                                   && s.lastSync == Current(w).lastSync && w'.saved == w.saved + [s, s]
  {
    hide ReconcileStep, S3.NameStep, S3.VerifyStep, S3Synced;
    var w1, inst := CalmReconcile(w, infra, AwsDriver(d));
    S3CalmNameStep(w1, inst, d);
    var r := S3.NameStep(w1, inst, d);
    S3CalmVerify(r.w, r.inst, d);
    var s := r.inst.status;
    if s.provisioned {
      SyncedSince(S3.VerifyStep(r.w, r.inst, d).w, d.infraName, r.w.clock, w.clock);
    } else {
      assert s.(provisioned := false) == s;
      assert w.saved + [s] + [s] == w.saved + [s, s];
    }
  }

  lemma S3CalmReconcile(w: World, infra: Infrastructure, d: S3.Config)
    requires S3Pending(w) && NewDriver(infra) == Some(AwsDriver(d))
    ensures var (w', ok) := ReconcileStep(w, infra);
            && ok && Calm(w')
            && (S3Synced(w', d.infraName, w.clock)
                || (S3Pending(w') && S3Rank(w') < S3Rank(w) && w.clock <= w'.clock))
  {
    hide ReconcileStep, S3.StorageStep, S3Synced;
    var w1, inst := CalmReconcile(w, infra, AwsDriver(d));
    S3CalmStorage(w1, inst, d);
    var r := S3.StorageStep(w1, inst, d);
    if S3Synced(r.w, d.infraName, w1.clock) {
      SyncedSince(r.w, d.infraName, w1.clock, w.clock);
    }
    ReconcileExtends(w, infra);
  }

  /** Once synced, further calm reconciles keep it so. */
  lemma S3SyncedStays(w: World, infra: Infrastructure, d: S3.Config, since: nat)
    requires Calm(w) && S3Synced(w, d.infraName, since) && NewDriver(infra) == Some(AwsDriver(d))
    ensures var (w', ok) := ReconcileStep(w, infra);
            ok && Calm(w') && S3Synced(w', d.infraName, since)
  {
    hide ReconcileStep, S3.VerifyStep, S3Bucket.AreOurTags;
    var w1, inst := CalmReconcile(w, infra, AwsDriver(d));
    if StorageBucketReconcileRequired(inst.status, w1.clock) {
      S3CalmVerify(w1, inst, d);
      SyncedSince(S3.VerifyStep(w1, inst, d).w, d.infraName, w1.clock, since);
    }
  }

  /** The state after `n` calm reconciles: already synced, or the rank is down by at least `n`. */
  lemma {:induction false} S3Progress(w: World, infra: Infrastructure, d: S3.Config, n: nat)
    requires S3Pending(w) && NewDriver(infra) == Some(AwsDriver(d))
    ensures var w' := Run(w, infra, n);
            && Calm(w') && w.clock <= w'.clock
            && (S3Synced(w', d.infraName, w.clock) || (S3Pending(w') && S3Rank(w') + n <= S3Rank(w)))
  {
    hide ReconcileStep, S3Synced, S3Rank;
    if n > 0 {
      S3Progress(w, infra, d, n - 1);
      var w' := Run(w, infra, n - 1);
      ReconcileExtends(w', infra);
      if S3Synced(w', d.infraName, w.clock) {
        S3SyncedStays(w', infra, d, w.clock);
      } else {
        S3CalmReconcile(w', infra, d);
        if S3Synced(ReconcileStep(w', infra).0, d.infraName, w'.clock) {
          SyncedSince(ReconcileStep(w', infra).0, d.infraName, w'.clock, w.clock);
        }
      }
    }
  }

  /** S3 heals itself: three calm reconciles are always enough, two unless somebody else holds the chosen
      name, and the synced state then lasts. */
  lemma S3SelfHeals(w: World, infra: Infrastructure, d: S3.Config, n: nat)
    requires S3Pending(w) && NewDriver(infra) == Some(AwsDriver(d))
    requires || 3 <= n
             || (2 <= n && !w.Theirs(Current(w).name))
             || (1 <= n && w.Mine(Current(w).name) && Current(w).name != "")
    ensures S3Synced(Run(w, infra, n), d.infraName, w.clock)
  {
    hide Run;
    S3Progress(w, infra, d, n);
  }

  /** The excluded state is truly excluded: from it every calm reconcile fails and persists nothing. */
  lemma {:induction false} S3HijackedIsStuck(w: World, infra: Infrastructure, d: S3.Config, n: nat)
    requires Calm(w) && Hijacked(w) && Stale(Current(w), w.clock) && NewDriver(infra) == Some(AwsDriver(d))
    ensures var w' := Run(w, infra, n);
            && w'.saved == w.saved && w'.cloud == w.cloud && Calm(w') && w.clock <= w'.clock
            && !ReconcileStep(w', infra).1
  {
    hide ReconcileStep, S3.VerifyStep;
    if n > 0 {
      S3HijackedIsStuck(w, infra, d, n - 1);
      S3HijackedStep(Run(w, infra, n - 1), infra, d);
    }
    S3HijackedStep(Run(w, infra, n), infra, d);
  }

  /** A schedule on which somebody else takes the bucket over at turn `k`. */
  function Takeover(k: nat): nat -> Turn {
    (i: nat) =>
      if i == k then Turn(Served, 0, {"a"}, map["a" := Bucket(Other, None, NO_SETTINGS)], map[], ["a"], 0, 0, "b")
      else Turn(Served, 0, {}, map[], map[], ["a"], 0, 0, "b")
  }

  /** It happens: on every AWS platform, a bucket found again from an empty status and taken over before it is
      verified leaves the operator failing for ever. */
  lemma S3GetsHijacked(infra: Infrastructure, d: S3.Config, n: nat)
    requires NewDriver(infra) == Some(AwsDriver(d))
    ensures var w := World(map["a" := S3Tagged(d)], [UNSET], 0, [], Takeover(6), 0);
            var w' := ReconcileStep(w, infra).0;
            Init(w) && Hijacked(w') && !ReconcileStep(Run(w', infra, n), infra).1
  {
    var w := World(map["a" := S3Tagged(d)], [UNSET], 0, [], Takeover(6), 0);
    S3IsTakenOver(w, infra, d);
    hide Run, ReconcileStep;
    S3HijackedIsStuck(ReconcileStep(w, infra).0, infra, d, n);
  }

  /** A bucket as the operator leaves it, as far as discovery goes. */
  function S3Tagged(d: S3.Config): Bucket {
    S3Bucket.NewBucket(d.region).(settings := NO_SETTINGS.(tags := Some(S3Bucket.OurTags(d.infraName, 0))))
  }

  lemma S3IsTakenOver(w: World, infra: Infrastructure, d: S3.Config)
    requires NewDriver(infra) == Some(AwsDriver(d))
    requires w == World(map["a" := S3Tagged(d)], [UNSET], 0, [], Takeover(6), 0)
    ensures var w' := ReconcileStep(w, infra).0;
            Hijacked(w') && Calm(w') && Stale(Current(w'), w'.clock)
  {
    var w1 := w.Next().Next();
    var inst := Instance(UNSET, 0);
    assert ReconcileStep(w, infra).0 == S3.StorageStep(w1, inst, d).w;
    assert BeforeTakeover(w1, d, 2);
    S3AdoptsA(w1, d);
    var r := S3.NameStep(w1, inst, d);
    hide S3.NameStep, ReconcileStep, S3.EnforceStep;
    assert S3.StorageStep(w1, inst, d) == S3.VerifyStep(r.w, r.inst, d);
    assert Head(r.w, "a").1 == Failed;
  }

  /** The name step of that reconcile, in which nothing goes wrong yet. */
  ghost predicate BeforeTakeover(w: World, d: S3.Config, pos: nat) {
    w.cloud == map["a" := S3Tagged(d)] && w.saved == [UNSET] && w.turns == Takeover(6) && w.pos == pos && w.clock == 0
  }

  lemma S3AdoptsA(w: World, d: S3.Config)
    requires BeforeTakeover(w, d, 2)
    ensures var r := S3.NameStep(w, Instance(UNSET, 0), d);
            && r.ok && r.inst == Instance(Status("a", true, None), 1) && r.w.saved == [UNSET, r.inst.status]
            && r.w.cloud == w.cloud && r.w.turns == w.turns && r.w.pos == 6 && r.w.clock == 0
  {
    S3ListsA(w, d);
    var (w1, names) := S3Bucket.RegionListing(w, d.region);
    S3TagsOfA(w1, d);
    var (w2, tags) := S3Bucket.TagList(w1, ["a"], []);
    S3MatchesA(d);
    hide S3Bucket.RegionListing, S3Bucket.TagList, S3Bucket.Match, S3Tagged, S3Bucket.OurTags;
    assert AdoptOrPropose(w2, Instance(UNSET, 0), "a") == S3.NameStep(w, Instance(UNSET, 0), d);
  }

  lemma S3ListsA(w: World, d: S3.Config)
    requires BeforeTakeover(w, d, 2)
    ensures var (w1, names) := S3Bucket.RegionListing(w, d.region);
            names == Some(["a"]) && BeforeTakeover(w1, d, 4)
  {
    hide S3Bucket.OurTags;
    assert Own(w.Next(), ["a"]) == ["a"];
    var w1 := List(w).0;
    S3Bucket.LocationRoundTrip(d.region);
    assert Locate(w1, "a") == (w1.Next(), At(S3Bucket.LocationConstraint(d.region)));
    assert ["a"][1..] == [] && [] + ["a"] == ["a"];
    hide S3Bucket.RegionOf, S3Bucket.LocationConstraint;
    assert S3Bucket.InRegion(w1, ["a"], d.region, []) == S3Bucket.InRegion(w1.Next(), [], d.region, ["a"]);
  }

  lemma S3TagsOfA(w: World, d: S3.Config)
    requires BeforeTakeover(w, d, 4)
    ensures var (w1, tags) := S3Bucket.TagList(w, ["a"], []);
            tags == Some([S3Bucket.Entry("a", S3Bucket.OurTags(d.infraName, 0))]) && BeforeTakeover(w1, d, 5)
  {
    hide S3Bucket.OurTags;
    var e := S3Bucket.Entry("a", S3Bucket.OurTags(d.infraName, 0));
    assert GetTagging(w, "a") == (w.Next(), TagSet(e.tags));
    assert ["a"][1..] == [] && S3Bucket.Store([], e, 0) == [e];
    hide S3Bucket.Store;
    assert S3Bucket.TagList(w, ["a"], []) == S3Bucket.TagList(w.Next(), [], [e]);
  }

  lemma S3MatchesA(d: S3.Config)
    ensures S3Bucket.Match([S3Bucket.Entry("a", S3Bucket.OurTags(d.infraName, 0))], d.infraName) == "a"
  {
    var e := S3Bucket.Entry("a", S3Bucket.OurTags(d.infraName, 0));
    assert e.tags[0].key == S3Bucket.TAG_BACKUP_LOCATION && e.tags[1].key == S3Bucket.TAG_INFRA_NAME;
    assert [e][0] == e;
  }

  lemma S3HijackedStep(w: World, infra: Infrastructure, d: S3.Config)
    requires Calm(w) && Hijacked(w) && Stale(Current(w), w.clock) && NewDriver(infra) == Some(AwsDriver(d))
    ensures var (w', ok) := ReconcileStep(w, infra);
            !ok && w'.saved == w.saved && w'.cloud == w.cloud && Calm(w') && w.clock <= w'.clock
  {
    hide ReconcileStep, S3.VerifyStep;
    var w1, inst := CalmReconcile(w, infra, AwsDriver(d));
    S3CalmVerify(w1, inst, d);
    ReconcileExtends(w, infra);
  }

  /** Three calm reconciles heal S3 exactly when the provisioned bucket was not taken over. */
  lemma S3HealsExactly(w: World, infra: Infrastructure, d: S3.Config, n: nat)
    requires Calm(w) && |w.saved| > 0 && ProposalsUnused(w) && NewDriver(infra) == Some(AwsDriver(d))
    requires StorageBucketReconcileRequired(Current(w), w.clock) && 3 <= n
    ensures S3Synced(Run(w, infra, n), d.infraName, w.clock) <==> !Hijacked(w)
  {
    hide Run, S3Synced, ReconcileStep;
    if Hijacked(w) {
      S3HijackedIsStuck(w, infra, d, n);
      HijackedIsNotSynced(w, Run(w, infra, n), d.infraName, w.clock);
    } else {
      S3SelfHeals(w, infra, d, n);
    }
  }

  lemma HijackedIsNotSynced(w: World, w': World, infraName: string, since: nat)
    requires Hijacked(w) && w'.saved == w.saved && w'.cloud == w.cloud
    ensures !S3Synced(w', infraName, since)
  {
  }

  // ---- GCS ----

  ghost predicate GcsSynced(w: World, infraName: string, since: nat) {
    && |w.saved| > 0
    && var s := Current(w);
    && s.name != "" && s.provisioned && s.lastSync.Some? && since <= s.lastSync.value <= w.clock
    && w.Mine(s.name) && GcsBucket.CarriesLabels(w.cloud[s.name].settings.labels, infraName)
  }

  /** A name that is not marked provisioned although the bucket exists, or is although somebody else
      holds it. */
  ghost predicate GcsStuck(w: World) {
    |w.saved| > 0 && Current(w).name != "" &&
    if Current(w).provisioned then w.Theirs(Current(w).name) else Current(w).name in w.cloud
  }

  lemma GcsCalmEnforce(w: World, inst: Instance, d: Gcs.Config)
    requires Calm(w) && w.Mine(inst.status.name) && inst.status.name != "" && inst.version + 1 == |w.saved|
    ensures var r := Gcs.EnforceStep(w, inst, d);
            r.ok && Calm(r.w) && GcsSynced(r.w, d.infraName, w.clock)
  {
    hide Put, Saving, GcsBucket.OurLabels, GcsBucket.CarriesLabels;
    var n, labels := inst.status.name, GcsBucket.OurLabels(d.infraName);
    CalmPut(w, n, MergeLabels(labels));
    GcsBucket.MergedLabelsMatch(w.cloud[n].settings, d.infraName, d.infraName);
    var w1 := Put(w, n, MergeLabels(labels)).0;
    CalmSave(w1, inst.(status := Status(n, true, Some(w1.clock))));
  }

  lemma GcsSyncedSince(w: World, infraName: string, since: nat, earlier: nat)
    requires GcsSynced(w, infraName, since) && earlier <= since
    ensures GcsSynced(w, infraName, earlier)
  {
  }

  lemma GcsCalmVerify(w: World, inst: Instance, d: Gcs.Config)
    requires Calm(w) && inst.status.name != "" && inst.version + 1 == |w.saved|
    ensures var r := Gcs.VerifyStep(w, inst, d);
            && (w.Mine(inst.status.name) ==> r.ok && Calm(r.w) && GcsSynced(r.w, d.infraName, w.clock))
            && (inst.status.name !in w.cloud ==> Left(w, r, inst.status.(provisioned := false)))
            && (w.Theirs(inst.status.name) ==> !r.ok && r.w.saved == w.saved && r.w.cloud == w.cloud)
  {
    hide Head, Saving, Gcs.EnforceStep, GcsSynced;
    CalmHead(w, inst.status.name);
    var w1 := Head(w, inst.status.name).0;
    if w.Mine(inst.status.name) {
      GcsCalmEnforce(w1, inst, d);
      GcsSyncedSince(Gcs.EnforceStep(w1, inst, d).w, d.infraName, w1.clock, w.clock);
    } else if inst.status.name !in w.cloud {
      CalmSave(w1, inst.(status := inst.status.(provisioned := false)));
    }
  }

  lemma GcsCalmNameStep(w: World, inst: Instance, d: Gcs.Config)
    requires Calm(w) && ProposalsUnused(w) && inst.version + 1 == |w.saved|
    ensures var r := Gcs.NameStep(w, inst, d);
            && |r.w.saved| == |w.saved| + 1
            && var s := Current(r.w);
            && Left(w, r, s) && s.lastSync == inst.status.lastSync && s.name != ""
            && if s.provisioned then w.Mine(s.name) else s.name !in w.cloud
  {
    hide AdoptOrPropose, GcsBucket.FirstMatch;
    Gcs.ListingFinds(w, d.infraName);
    var (w1, listed) := GcsBucket.ListBuckets(w);
    CalmAdoptOrPropose(w1, inst, GcsBucket.FirstMatch(listed.value, d.infraName));
  }

  /** GCS returns after naming: one status write, and no sync yet. */
  lemma GcsUnnamedReturns(w: World, infra: Infrastructure, d: Gcs.Config)
    requires Calm(w) && ProposalsUnused(w) && NewDriver(infra) == Some(GcpDriver(d))
    requires |w.saved| > 0 && Current(w).name == ""
    ensures var w' := ReconcileStep(w, infra).0;
            && w'.cloud == w.cloud
            && exists s: Status :: s.name != "" && (if s.provisioned then w.Mine(s.name) else s.name !in w.cloud)
                                   && s.lastSync == Current(w).lastSync && w'.saved == w.saved + [s]
  {
    hide ReconcileStep, Gcs.NameStep;
    var w1, inst := CalmReconcile(w, infra, GcpDriver(d));
    GcsCalmNameStep(w1, inst, d);
  }

  lemma GcsCalmCreateStep(w: World, inst: Instance, d: Gcs.Config)
    requires Calm(w) && inst.status.name != "" && !inst.status.provisioned && inst.version + 1 == |w.saved|
    ensures var r := Gcs.CreateStep(w, inst, d);
            if inst.status.name in w.cloud then !r.ok && r.w.saved == w.saved && r.w.cloud == w.cloud
            else r.ok && Calm(r.w) && GcsSynced(r.w, d.infraName, w.clock)
  {
    hide Create, Gcs.VerifyStep, GcsSynced, GcsBucket.OurLabels;
    var b := GcsBucket.NewBucket(d.region, d.infraName);
    CalmCreate(w, inst.status.name, b);
    var (w1, a) := Create(w, inst.status.name, b);
    if a.Fresh? {
      GcsCalmVerify(w1, inst, d);
      GcsSyncedSince(Gcs.VerifyStep(w1, inst, d).w, d.infraName, w1.clock, w.clock);
    }
  }

  ghost predicate GcsPending(w: World) {
    Calm(w) && |w.saved| > 0 && ProposalsUnused(w) && Stale(Current(w), w.clock)
  }

  /** One reconcile away from synced. */
  ghost predicate GcsReady(w: World) {
    GcsPending(w) && Current(w).name != "" &&
    if Current(w).provisioned then w.Mine(Current(w).name) else Current(w).name !in w.cloud
  }

  lemma GcsCalmStorage(w: World, inst: Instance, d: Gcs.Config)
    requires GcsPending(w) && inst == Instance(Current(w), |w.saved| - 1)
    ensures var r := Gcs.StorageStep(w, inst, d);
            if GcsStuck(w) then !r.ok && r.w.saved == w.saved && r.w.cloud == w.cloud
            else
              && r.ok && Calm(r.w)
              && (GcsReady(w) ==> GcsSynced(r.w, d.infraName, w.clock))
              && (!GcsReady(w) ==> GcsReady(r.w))
  {
    hide Gcs.NameStep, Gcs.VerifyStep, Gcs.CreateStep, GcsSynced;
    if inst.status.name == "" {
      GcsCalmNameStep(w, inst, d);
    } else if inst.status.provisioned {
      GcsCalmVerify(w, inst, d);
    } else {
      GcsCalmCreateStep(w, inst, d);
    }
  }

  lemma GcsCalmReconcile(w: World, infra: Infrastructure, d: Gcs.Config)
    requires GcsPending(w) && NewDriver(infra) == Some(GcpDriver(d))
    ensures var (w', ok) := ReconcileStep(w, infra);
            && w.clock <= w'.clock && Calm(w')
            && if GcsStuck(w) then !ok && w'.saved == w.saved && GcsPending(w') && GcsStuck(w')
               else
                 && ok
                 && (GcsReady(w) ==> GcsSynced(w', d.infraName, w.clock))
                 && (!GcsReady(w) ==> GcsReady(w'))
  {
    hide ReconcileStep, Gcs.StorageStep, GcsSynced;
    var w1, inst := CalmReconcile(w, infra, GcpDriver(d));
    GcsCalmStorage(w1, inst, d);
    if GcsReady(w) {
      GcsSyncedSince(Gcs.StorageStep(w1, inst, d).w, d.infraName, w1.clock, w.clock);
    }
    ReconcileExtends(w, infra);
    CalmLasts(w, ReconcileStep(w, infra).0);
  }

  lemma GcsSyncedStays(w: World, infra: Infrastructure, d: Gcs.Config, since: nat)
    requires Calm(w) && GcsSynced(w, d.infraName, since) && NewDriver(infra) == Some(GcpDriver(d))
    ensures var (w', ok) := ReconcileStep(w, infra);
            ok && Calm(w') && GcsSynced(w', d.infraName, since)
  {
    hide ReconcileStep, Gcs.VerifyStep, GcsBucket.CarriesLabels;
    var w1, inst := CalmReconcile(w, infra, GcpDriver(d));
    if StorageBucketReconcileRequired(inst.status, w1.clock) {
      GcsCalmVerify(w1, inst, d);
      GcsSyncedSince(Gcs.VerifyStep(w1, inst, d).w, d.infraName, w1.clock, since);
    }
  }

  lemma GcsStuckStep(w: World, infra: Infrastructure, d: Gcs.Config)
    requires Calm(w) && GcsStuck(w) && NewDriver(infra) == Some(GcpDriver(d))
    requires StorageBucketReconcileRequired(Current(w), w.clock)
    ensures var (w', ok) := ReconcileStep(w, infra);
            !ok && Calm(w') && w'.saved == w.saved && w'.cloud == w.cloud && w.clock <= w'.clock
  {
    hide ReconcileStep, Gcs.VerifyStep, Gcs.CreateStep;
    var w1, inst := CalmReconcile(w, infra, GcpDriver(d));
    if inst.status.provisioned {
      GcsCalmVerify(w1, inst, d);
    } else {
      GcsCalmCreateStep(w1, inst, d);
    }
    ReconcileExtends(w, infra);
    CalmLasts(w, ReconcileStep(w, infra).0);
  }

  /** From a stuck state every calm reconcile fails and leaves the status as it is, for ever. */
  lemma {:induction false} GcsStuckForever(w: World, infra: Infrastructure, d: Gcs.Config, n: nat)
    requires Calm(w) && GcsStuck(w) && NewDriver(infra) == Some(GcpDriver(d))
    requires StorageBucketReconcileRequired(Current(w), w.clock)
    ensures var w' := Run(w, infra, n);
            && Calm(w') && GcsStuck(w') && w'.saved == w.saved && w'.cloud == w.cloud && w.clock <= w'.clock
            && !ReconcileStep(w', infra).1
  {
    hide ReconcileStep;
    if n > 0 {
      GcsStuckForever(w, infra, d, n - 1);
      GcsStuckStep(Run(w, infra, n - 1), infra, d);
    }
    GcsStuckStep(Run(w, infra, n), infra, d);
  }

  /** The named bucket exists, but is not marked provisioned. */
  ghost predicate Unclaimed(w: World) {
    |w.saved| > 0 && Current(w).name != "" && !Current(w).provisioned && Current(w).name in w.cloud
  }

  /** Creating what exists fails, and a copy that is not the latest cannot be persisted. */
  lemma GcsUnclaimedCall(w: World, inst: Instance, d: Gcs.Config)
    requires NoDeletion(w) && Unclaimed(w) && inst.version < |w.saved| && inst.status == w.saved[inst.version]
    ensures Gcs.StorageStep(w, inst, d).w.saved == w.saved
  {
    if inst.version + 1 == |w.saved| {
      hide Gcs.VerifyStep, Gcs.NameStep, GcsBucket.OurLabels, Create;
      CreateExisting(w, inst.status.name, GcsBucket.NewBucket(d.region, d.infraName));
    } else {
      hide Gcs.StorageStep, Move, NewEvents, Keeps;
      Gcs.StorageStepIsCall(w, inst, d);
    }
  }

  lemma CreateExisting(w: World, name: string, b: Bucket)
    requires NoDeletion(w) && name in w.cloud && b.owner.Self?
    ensures !Create(w, name, b).1.Fresh? && Create(w, name, b).0.saved == w.saved
  {
  }

  lemma GcsUnclaimedStep(w: World, infra: Infrastructure, d: Gcs.Config)
    requires NoDeletion(w) && Unclaimed(w) && NewDriver(infra) == Some(GcpDriver(d))
    ensures var w' := ReconcileStep(w, infra).0;
            w'.saved == w.saved && NoDeletion(w') && Unclaimed(w')
  {
    hide ReconcileStep, Gcs.StorageStep, Call;
    var w1, inst := ReconcileCases(w, infra, GcpDriver(d));
    ReconcileExtends(w, infra);
    if ReconcileStep(w, infra).0 != w1 && StorageBucketReconcileRequired(inst.status, w1.clock) {
      GcsUnclaimedCall(w1, inst, d);
      StorageStepIsCall(w1, inst, GcpDriver(d));
      CallExtends(Gcp, d.infraName, w1, inst, Gcs.StorageStep(w1, inst, d));
    }
  }

  /** The status never changes again, in any weather: whatever fails, lags or is hidden, as long as nobody
      else deletes the bucket. */
  lemma {:induction false} GcsNeverUnsticks(w: World, infra: Infrastructure, d: Gcs.Config, n: nat)
    requires NoDeletion(w) && Unclaimed(w) && NewDriver(infra) == Some(GcpDriver(d))
    ensures var w' := Run(w, infra, n);
            w'.saved == w.saved && NoDeletion(w') && Unclaimed(w')
  {
    hide ReconcileStep;
    if n > 0 {
      GcsNeverUnsticks(w, infra, d, n - 1);
      GcsUnclaimedStep(Run(w, infra, n - 1), infra, d);
    }
  }

  lemma {:induction false} GcsUnstuckSyncs(w: World, infra: Infrastructure, d: Gcs.Config, n: nat)
    requires GcsPending(w) && !GcsStuck(w) && NewDriver(infra) == Some(GcpDriver(d)) && n >= 2
    ensures Calm(Run(w, infra, n)) && GcsSynced(Run(w, infra, n), d.infraName, w.clock)
  {
    hide ReconcileStep, GcsSynced, GcsReady, GcsPending, GcsStuck;
    var w' := Run(w, infra, n - 1);
    if n > 2 {
      GcsUnstuckSyncs(w, infra, d, n - 1);
      GcsSyncedStays(w', infra, d, w.clock);
    } else {
      assert w' == ReconcileStep(Run(w, infra, 0), infra).0;
      GcsCalmReconcile(w, infra, d);
      if GcsReady(w) {
        GcsSyncedStays(w', infra, d, w.clock);
      } else {
        ReadyIsPending(w');
        GcsCalmReconcile(w', infra, d);
        GcsSyncedSince(ReconcileStep(w', infra).0, d.infraName, w'.clock, w.clock);
      }
    }
  }

  lemma ReadyIsPending(w: World)
    requires GcsReady(w)
    ensures GcsPending(w) && !GcsStuck(w)
  {
  }

  /** GCS converges within two calm reconciles exactly when it is not stuck. */
  lemma GcsConvergesExactly(w: World, infra: Infrastructure, d: Gcs.Config, n: nat)
    requires GcsPending(w) && NewDriver(infra) == Some(GcpDriver(d)) && n >= 2
    ensures GcsSynced(Run(w, infra, n), d.infraName, w.clock) <==> !GcsStuck(w)
  {
    hide Run;
    if GcsStuck(w) {
      GcsStuckForever(w, infra, d, n);
    } else {
      GcsUnstuckSyncs(w, infra, d, n);
    }
  }

  /** How it gets stuck: any creation that took effect in a call that did not live to persist the sync,
      for whatever reason, if nobody removes the bucket. S3 recovers from the same accident. */
  lemma GcsInterruptedCreationSticks(w: World, inst: Instance, d: Gcs.Config, i: nat)
    requires NoDeletion(w) && |w.saved| > 0 && inst.status == Current(w)
    requires var w' := Gcs.StorageStep(w, inst, d).w;
             |w.log| <= i < |w'.log| && w'.log[i].Made? && w'.saved == w.saved
    ensures GcsStuck(Gcs.StorageStep(w, inst, d).w)
  {
    hide Gcs.StorageStep, Move;
    Gcs.StorageStepIsCall(w, inst, d);
  }

  /** A schedule on which only the lookup right after the creation fails. */
  function Stumble(i: nat): Turn {
    Turn(if i == 8 then Refused else Served, 0, {}, map[], map[], [], 0, 0, if i < 5 then "a" else "b")
  }

  const FRESH := World(map[], [UNSET], 0, [], Stumble, 0)

  /** The first reconcile of a new installation on GCS persists a proposal. */
  lemma GcsProposes(infra: Infrastructure, d: Gcs.Config)
    requires NewDriver(infra) == Some(GcpDriver(d))
    ensures var w := ReconcileStep(FRESH, infra).0;
            && w.cloud == map[] && w.saved == [UNSET, Status(BUCKET_PREFIX + "a", false, None)]
            && w.turns == Stumble && w.pos == 5 && w.clock == 0
  {
    hide Gcs.StorageStep;
    var w := FRESH.Next().Next();
    assert ReconcileStep(FRESH, infra).0 == Gcs.StorageStep(w, Instance(UNSET, 0), d).w;
    GcsNameStepProposes(w, d);
  }

  lemma GcsNameStepProposes(w: World, d: Gcs.Config)
    requires w == FRESH.Next().Next()
    ensures var w' := Gcs.StorageStep(w, Instance(UNSET, 0), d).w;
            && w'.cloud == map[] && w'.saved == [UNSET, Status(BUCKET_PREFIX + "a", false, None)]
            && w'.turns == Stumble && w'.pos == 5 && w'.clock == 0
  {
    var (w1, listed) := GcsBucket.ListBuckets(w);
    assert w.Turn().order == [] && w1.pos == 3 && listed == Some([]);
    var proposed := BUCKET_PREFIX + w1.Turn().uuid;
    var (w2, a) := Head(w1, proposed);
    assert a.Absent? && w2.pos == 4;
  }

  /** It happens: on every GCS platform, from a new installation, one failed lookup after the creation leaves
      the operator stuck for ever, although nobody ever interferes. */
  lemma GcsGetsStuck(infra: Infrastructure, d: Gcs.Config, n: nat)
    requires NewDriver(infra) == Some(GcpDriver(d))
    ensures Init(FRESH) && NoDeletion(FRESH)
    ensures GcsStuck(Run(FRESH, infra, 2)) && !ReconcileStep(Run(Run(FRESH, infra, 2), infra, n), infra).1
  {
    hide Run, ReconcileStep;
    GcsStumbles(infra, d);
    assert (BUCKET_PREFIX + "b")[|BUCKET_PREFIX|] == 'b' && (BUCKET_PREFIX + "a")[|BUCKET_PREFIX|] == 'a';
    GcsStuckForever(Run(FRESH, infra, 2), infra, d, n);
  }

  lemma GcsStumbles(infra: Infrastructure, d: Gcs.Config)
    requires NewDriver(infra) == Some(GcpDriver(d))
    ensures var w := Run(FRESH, infra, 2);
            && w.saved == [UNSET, Status(BUCKET_PREFIX + "a", false, None)] && w.cloud.Keys == {BUCKET_PREFIX + "a"}
            && w.turns == Stumble && w.pos == 9
  {
    hide ReconcileStep;
    GcsProposes(infra, d);
    assert Run(FRESH, infra, 0) == FRESH;
    assert Run(FRESH, infra, 1) == ReconcileStep(FRESH, infra).0;
    GcsCreatesAndStumbles(Run(FRESH, infra, 1), infra, d);
  }

  lemma GcsCreatesAndStumbles(w: World, infra: Infrastructure, d: Gcs.Config)
    requires NewDriver(infra) == Some(GcpDriver(d))
    requires w.cloud == map[] && w.saved == [UNSET, Status(BUCKET_PREFIX + "a", false, None)]
    requires w.turns == Stumble && w.pos == 5
    ensures var w' := ReconcileStep(w, infra).0;
            w'.saved == w.saved && w'.cloud.Keys == {Current(w).name} && w'.turns == Stumble && w'.pos == 9
  {
    hide GcsBucket.OurLabels;
    var w1 := w.Next().Next();
    var inst := Instance(Current(w), 1);
    assert ReconcileStep(w, infra).0 == Gcs.StorageStep(w1, inst, d).w;
    var (w2, a) := Create(w1, inst.status.name, GcsBucket.NewBucket(d.region, d.infraName));
    assert a.Fresh? && w2.pos == 8;
  }

  /** The other way to get stuck: on every GCS platform, a bucket found again and taken over while its name is
      being persisted leaves the operator failing for ever. */
  lemma GcsGetsHijacked(infra: Infrastructure, d: Gcs.Config, n: nat)
    requires NewDriver(infra) == Some(GcpDriver(d))
    ensures var w := World(map["a" := GcsBucket.NewBucket(d.region, d.infraName)], [UNSET], 0, [], Takeover(4), 0);
            var w' := ReconcileStep(w, infra).0;
            && Init(w) && GcsStuck(w') && Current(w').provisioned
            && !ReconcileStep(Run(w', infra, n), infra).1
  {
    var w := World(map["a" := GcsBucket.NewBucket(d.region, d.infraName)], [UNSET], 0, [], Takeover(4), 0);
    GcsIsTakenOver(w, infra, d);
    hide Run, ReconcileStep;
    GcsStuckForever(ReconcileStep(w, infra).0, infra, d, n);
  }

  lemma GcsIsTakenOver(w: World, infra: Infrastructure, d: Gcs.Config)
    requires NewDriver(infra) == Some(GcpDriver(d))
    requires w == World(map["a" := GcsBucket.NewBucket(d.region, d.infraName)], [UNSET], 0, [], Takeover(4), 0)
    ensures var w' := ReconcileStep(w, infra).0;
            && w'.saved == [UNSET, Status("a", true, None)] && w'.Theirs("a") && Calm(w')
  {
    var w1 := w.Next().Next();
    var inst := Instance(UNSET, 0);
    hide GcsBucket.ListBuckets, GcsBucket.FirstMatch, GcsBucket.OurLabels, Gcs.VerifyStep, Gcs.CreateStep;
    assert ReconcileStep(w, infra).0 == Gcs.StorageStep(w1, inst, d).w;
    GcsListsA(w1, d);
    var w2 := GcsBucket.ListBuckets(w1).0;
    hide ReconcileStep, AdoptOrPropose;
    GcsSavesA(w2);
    assert Gcs.StorageStep(w1, inst, d) == AdoptOrPropose(w2, inst, "a");
  }

  lemma GcsSavesA(w: World)
    requires w.saved == [UNSET] && w.turns == Takeover(4) && w.pos == 4
    ensures var w' := AdoptOrPropose(w, Instance(UNSET, 0), "a").w;
            w'.saved == [UNSET, Status("a", true, None)] && w'.Theirs("a") && Calm(w')
  {
  }

  lemma OurLabelsMatch(infraName: string)
    ensures GcsBucket.LabelsMatch(GcsBucket.OurLabels(infraName), infraName)
  {
    hide GcsBucket.OurLabels, GcsBucket.LabelsMatch, GcsBucket.CarriesLabels;
    GcsBucket.MergedLabelsMatch(NO_SETTINGS, infraName, infraName);
    GcsBucket.MatchMeans(GcsBucket.OurLabels(infraName), infraName);
    assert NO_SETTINGS.labels + GcsBucket.OurLabels(infraName) == GcsBucket.OurLabels(infraName);
  }

  lemma GcsListsA(w: World, d: Gcs.Config)
    requires w.cloud == map["a" := GcsBucket.NewBucket(d.region, d.infraName)] && w.turns == Takeover(4) && w.pos == 2
    ensures var (w1, listed) := GcsBucket.ListBuckets(w);
            && w1.cloud == w.cloud && w1.saved == w.saved && w1.turns == w.turns && w1.pos == 4
            && listed.Some? && GcsBucket.FirstMatch(listed.value, d.infraName) == "a"
  {
    var a := GcsBucket.Attrs("a", GcsBucket.OurLabels(d.infraName));
    OurLabelsMatch(d.infraName);
    hide GcsBucket.OurLabels, GcsBucket.LabelsMatch;
    assert GcsBucket.NextItem(w, Some("a")) == (w.Next(), GcsBucket.Item(a));
    assert ["a"][1..] == [] && [] + [a] == [a];
    assert GcsBucket.Pages(w, ["a"], []) == GcsBucket.Pages(w.Next(), [], [a]);
  }

  // ---- From any run ----

  /** After any run without outside deletions, however its calls failed, three calm reconciles sync S3. */
  lemma S3HealsAfterAnyRun(w: World, infra: Infrastructure, d: S3.Config, m: nat, n: nat)
    requires Init(w) && NoDeletion(w) && NewDriver(infra) == Some(AwsDriver(d)) && 3 <= n
    requires var w1 := Run(w, infra, m);
             Calm(w1) && ProposalsUnused(w1) && |w1.saved| > 0
             && StorageBucketReconcileRequired(Current(w1), w1.clock)
    ensures S3Synced(Run(Run(w, infra, m), infra, n), d.infraName, Run(w, infra, m).clock)
  {
    hide Run, S3Synced, ReconcileStep;
    ProvisionedIsOurs(w, infra, AwsDriver(d), m);
    S3HealsExactly(Run(w, infra, m), infra, d, n);
  }

  /** After any run without outside deletions, two calm reconciles sync GCS unless the named bucket exists
      without being marked provisioned. */
  lemma GcsHealsAfterAnyRun(w: World, infra: Infrastructure, d: Gcs.Config, m: nat, n: nat)
    requires Init(w) && NoDeletion(w) && NewDriver(infra) == Some(GcpDriver(d)) && 2 <= n
    requires var w1 := Run(w, infra, m);
             Calm(w1) && ProposalsUnused(w1) && |w1.saved| > 0
             && StorageBucketReconcileRequired(Current(w1), w1.clock)
    ensures var w1 := Run(w, infra, m);
            GcsSynced(Run(w1, infra, n), d.infraName, w1.clock)
            <==> !(Current(w1).name != "" && !Current(w1).provisioned && Current(w1).name in w1.cloud)
  {
    hide Run, GcsSynced, ReconcileStep, Done;
    ProvisionedIsOurs(w, infra, GcpDriver(d), m);
    RunKeepsInv(w, infra, GcpDriver(d), m);
    CalledWhenStale(GcpDriver(d), Run(w, infra, m), Current(Run(w, infra, m)));
    GcsConvergesExactly(Run(w, infra, m), infra, d, n);
  }
}
