/** The S3 storage driver (pkg/storage/s3/s3.go). */
module S3 {
  import opened Options
  import opened Cloud
  import opened S3Bucket
  import opened Phases

  datatype Config = Config(region: string, infraName: string)

  /** Finds a bucket tagged for this cluster, or proposes an unused name, and persists the choice. */
  function NameStep(w: World, inst: Instance, d: Config): Reply {
    var (w1, names) := RegionListing(w, d.region);
    if names.None? then Reply(w1, inst, false)
    else
      var (w2, tags) := TagList(w1, names.value, []);
      if tags.None? then Reply(w2, inst, false)
      else
        AdoptOrPropose(w2, inst, Match(tags.value, d.infraName))
  }

  /** The enforcement sequence. */
  function Enforcing(w: World, name: string, d: Config): (World, bool) {
    var (w1, ok1) := Put(w, name, Encrypt);
    if !ok1 then (w1, false)
    else
      var (w2, ok2) := Put(w1, name, BlockPublicAccess);
      if !ok2 then (w2, false)
      else
        var (w3, ok3) := Put(w2, name, SetLifecycle);
        if !ok3 then (w3, false) else Tagged(w3, name, d.infraName)
  }

  /** Enforcement and the stamp that records it. */
  function EnforceStep(w: World, inst: Instance, d: Config): Reply {
    var n := inst.status.name;
    var (w1, ok) := Enforcing(w, n, d);
    if !ok then Reply(w1, inst, false)
    else Saving(w1, inst.(status := Status(n, true, Some(w1.clock))))
  }

  function VerifyStep(w: World, inst: Instance, d: Config): Reply {
    var (w1, a) := Head(w, inst.status.name);
    match a
    case Failed => Reply(w1, inst, false)
    case Absent => Saving(w1, inst.(status := inst.status.(provisioned := false)))
    case Found => EnforceStep(w1, inst, d)
  }

  /** A name is chosen but its bucket has not been provisioned yet. */
  function CreateStep(w: World, inst: Instance, d: Config): Reply {
    var (w1, a) := Create(w, inst.status.name, NewBucket(d.region));
    match a
    case NotCreated => Reply(w1, inst, false)
    case Taken => Saving(w1, inst.(status := inst.status.(name := "")))
    case _ => TagAndVerify(w1, inst, d)
  }

  function TagAndVerify(w: World, inst: Instance, d: Config): Reply {
    var (w1, ok) := Tagged(w, inst.status.name, d.infraName);
    if ok then VerifyStep(w1, inst, d) else Reply(w1, inst, false)
  }

  function StorageStep(w: World, inst: Instance, d: Config): Reply {
    if inst.status.name == "" then
      var r := NameStep(w, inst, d);
      if r.ok then VerifyStep(r.w, r.inst, d) else r
    else if !inst.status.provisioned then CreateStep(w, inst, d)
    else VerifyStep(w, inst, d)
  }

  // ---- The driver implements the abstract machine ----

  /** The settings of a whole pass, each acknowledged, in their order. */
  ghost predicate AllSet(infraName: string, name: string, seg: seq<Event>) {
    && |seg| == 5
    && Set(seg[0], name, Encrypt)
    && Set(seg[1], name, BlockPublicAccess)
    && Set(seg[2], name, SetLifecycle)
    && Set(seg[3], name, ClearTags)
    && seg[4].Did? && seg[4].name == name && seg[4].change.PutTags?
    && AreOurTags(seg[4].change.tags, infraName)
    && seg[0].at <= seg[1].at <= seg[2].at <= seg[3].at <= seg[4].at
  }

  lemma EnforcingIsQuiet(w: World, name: string, d: Config)
    ensures Quiet(w, Enforcing(w, name, d).0)
  {
    hide Put, Tagged;
  }

  lemma EnforcingSetsAll(w: World, name: string, d: Config)
    requires Enforcing(w, name, d).1
    ensures var w' := Enforcing(w, name, d).0;
            AllSet(d.infraName, name, w'.log[|w.log|..]) && w'.log[|w'.log| - 1].at == w'.clock
  {
    hide Put, AreOurTags, OurTags;
  }

  /** Enforcement persists only at its end, and only after every setting was acknowledged. */
  lemma EnforceEffects(w: World, inst: Instance, d: Config)
    requires EnforceStep(w, inst, d).w.saved != w.saved
    ensures var r := EnforceStep(w, inst, d);
            && r.w.saved == w.saved + [Status(inst.status.name, true, r.w.saved[|w.saved|].lastSync)]
            && |r.w.log| == |w.log| + 6 && w.log <= r.w.log
            && AllSet(d.infraName, inst.status.name, r.w.log[|w.log|..|w.log| + 5])
            && r.w.log[|w.log| + 5].Saved? && r.w.log[|w.log| + 5].status == r.w.saved[|w.saved|]
            && r.w.saved[|w.saved|].lastSync == Some(r.w.log[|w.log| + 4].at)
            && w.clock <= r.w.log[|w.log| + 4].at <= r.w.log[|w.log| + 5].at <= r.w.clock
  {
    hide Enforcing, Save, AllSet;
    EnforcingIsQuiet(w, inst.status.name, d);
    EnforcingSetsAll(w, inst.status.name, d);
    var (w1, ok) := Enforcing(w, inst.status.name, d);
    assert |w1.log[|w.log|..]| == 5 by { AllSetIsFive(d.infraName, inst.status.name, w1.log[|w.log|..]); }
    assert EnforceStep(w, inst, d).w.log[|w.log|..|w.log| + 5] == w1.log[|w.log|..];
  }

  lemma AllSetIsFive(infraName: string, name: string, seg: seq<Event>)
    requires AllSet(infraName, name, seg)
    ensures |seg| == 5
  {
  }

  lemma PassIsFullSync(infraName: string, s: Status, seen: Event, seg: seq<Event>, saved: Event)
    requires AllSet(infraName, s.name, seg) && s.name != "" && s.provisioned && s.lastSync == Some(seg[4].at)
    requires seen.Seen? && seen.name == s.name && seen.at <= seg[0].at
    requires saved.Saved? && saved.status == s && seg[4].at <= saved.at
    ensures FullSync(Aws, infraName, s, [seen] + seg + [saved])
  {
    hide AreOurTags;
  }

  lemma EnforceIsTail(w: World, inst: Instance, d: Config)
    requires inst.status.name != "" && w.log != [] && w.log[|w.log| - 1] == Seen(inst.status.name, w.clock)
    ensures Tail(Aws, d.infraName, w, inst, EnforceStep(w, inst, d))
  {
    hide FullSync, Enforcing, Save;
    var k, r := |w.log|, EnforceStep(w, inst, d);
    EnforcingIsQuiet(w, inst.status.name, d);
    if r.w.saved != w.saved {
      EnforceEffects(w, inst, d);
      hide EnforceStep;
      var s, seg := r.w.saved[|w.saved|], r.w.log[k..k + 5];
      PassIsFullSync(d.infraName, s, w.log[k - 1], seg, r.w.log[k + 5]);
      assert r.w.log[k - 1..k + 6] == [w.log[k - 1]] + seg + [r.w.log[k + 5]];
      assert FullSyncAt(Aws, d.infraName, s, r.w.log, k - 1, k + 6);
    }
  }

  lemma VerifyIsTail(w: World, inst: Instance, d: Config)
    requires inst.status.name != ""
    ensures Tail(Aws, d.infraName, w, inst, VerifyStep(w, inst, d))
  {
    hide Head, Saving, EnforceStep, Tail;
    var (w1, a) := Head(w, inst.status.name);
    match a {
      case Found =>
        EnforceIsTail(w1, inst, d);
        QuietThenTail(Aws, d.infraName, w, w1, inst, EnforceStep(w1, inst, d));
      case Absent =>
        assert w1.log[|w.log|] == Missed(inst.status.name);
        SavingIsTail(Aws, d.infraName, w, w1, inst, inst.status.(provisioned := false));
      case Failed =>
        QuietIsTail(Aws, d.infraName, w, w1, inst);
    }
  }

  lemma NameStepIsTail(w: World, inst: Instance, d: Config)
    requires inst.status.name == ""
    ensures Tail(Aws, d.infraName, w, inst, NameStep(w, inst, d))
    ensures NameStep(w, inst, d).ok ==> NameStep(w, inst, d).inst.status.name != ""
  {
    hide AdoptOrPropose, RegionListing, TagList, Match, Tail, HasKey, Sighted;
    var (w1, names) := RegionListing(w, d.region);
    QuietIsTail(Aws, d.infraName, w, w1, inst);
    if names.Some? {
      var (w2, tags) := TagList(w1, names.value, []);
      QuietIsTail(Aws, d.infraName, w, w2, inst);
      if tags.Some? {
        var existing := Match(tags.value, d.infraName);
        if existing != "" {
          assert existing in names.value by { MatchAmong(tags.value, d.infraName, names.value); }
        }
        AdoptOrProposeIsTail(Aws, d.infraName, w, w2, inst, existing);
      }
    }
  }

  lemma MatchAmong(es: seq<Entry>, infraName: string, names: seq<string>)
    requires forall n :: HasKey(es, n) ==> HasKey([], n) || n in names
    ensures Match(es, infraName) != "" ==> Match(es, infraName) in names
  {
    hide Match;
    MatchIsListed(es, infraName);
  }

  lemma TagAndVerifyIsTail(w: World, inst: Instance, d: Config)
    requires inst.status.name != ""
    ensures Tail(Aws, d.infraName, w, inst, TagAndVerify(w, inst, d))
  {
    hide VerifyStep, Tagged, Tail;
    var (w1, ok) := Tagged(w, inst.status.name, d.infraName);
    if ok {
      VerifyIsTail(w1, inst, d);
      QuietThenTail(Aws, d.infraName, w, w1, inst, VerifyStep(w1, inst, d));
    } else {
      QuietIsTail(Aws, d.infraName, w, w1, inst);
    }
  }

  lemma CreateStepIsCall(w: World, inst: Instance, d: Config)
    requires inst.status.name != "" && !inst.status.provisioned
    ensures Call(Aws, d.infraName, w, inst, CreateStep(w, inst, d))
  {
    hide Create, Save, TagAndVerify, Witnessed, Occurs, Sighted;
    var (w1, a) := Create(w, inst.status.name, NewBucket(d.region));
    if a.Fresh? || a.Yours? {
      TagAndVerifyIsTail(w1, inst, d);
      Prefixed(Aws, d.infraName, w, w1, inst, TagAndVerify(w1, inst, d));
    } else if a.Taken? {
      var r := CreateStep(w, inst, d);
      OccursAt(Denied(inst.status.name), r.w.log, |w.log|, |w.log|);
      if r.w.saved != w.saved {
        LastIsRecorded(inst.status.(name := ""), w1.log, r.w.log, r.w.clock);
      }
    }
  }

  /** Every S3 driver call is a run of at most two abstract moves. */
  lemma StorageStepIsCall(w: World, inst: Instance, d: Config)
    ensures Call(Aws, d.infraName, w, inst, StorageStep(w, inst, d))
  {
    hide NameStep, VerifyStep, CreateStep, Tail, Call;
    if inst.status.name == "" {
      UnnamedIsCall(w, inst, d);
    } else if inst.status.provisioned {
      VerifyIsTail(w, inst, d);
      TailIsCall(Aws, d.infraName, w, inst, VerifyStep(w, inst, d));
    } else {
      CreateStepIsCall(w, inst, d);
    }
  }

  lemma UnnamedIsCall(w: World, inst: Instance, d: Config)
    requires inst.status.name == ""
    ensures Call(Aws, d.infraName, w, inst, StorageStep(w, inst, d))
  {
    hide NameStep, VerifyStep, CreateStep, Tail, Call;
    var r := NameStep(w, inst, d);
    NameStepIsTail(w, inst, d);
    if r.ok {
      VerifyIsTail(r.w, r.inst, d);
      TwoMoves(d.infraName, w, inst, r, VerifyStep(r.w, r.inst, d));
    } else {
      TailIsCall(Aws, d.infraName, w, inst, r);
    }
  }

  /** The driver object. Its methods assign the instance's fields between remote calls. */
  class Driver {
    const config: Config

    constructor (config: Config)
      ensures this.config == config
    {
      this.config := config;
    }

    method SetInstanceBucketName(env: Env, instance: VeleroInstall) returns (ok: bool)
      modifies env, instance
      ensures Reply(env.w, instance.Value(), ok) == NameStep(old(env.w), old(instance.Value()), config)
    {
      hide Head, Save, RegionListing, TagList, Match;
      var names := ListBucketsInRegion(env, config.region);
      if names.None? {
        return false;
      }
      var tags := ListBucketTags(env, names.value);
      if tags.None? {
        return false;
      }
      var existing := FindMatchingTags(tags.value, config.infraName);
      if existing != "" {
        instance.name := existing;
        instance.provisioned := true;
        ok := instance.StatusUpdate(env);
        return;
      }
      var proposed := BUCKET_PREFIX + env.w.Turn().uuid;
      var a := env.HeadBucket(proposed);
      if !a.Absent? {
        return false;
      }
      instance.name := proposed;
      instance.provisioned := false;
      ok := instance.StatusUpdate(env);
    }

    method CreateStorage(env: Env, instance: VeleroInstall) returns (ok: bool)
      modifies env, instance
      ensures Reply(env.w, instance.Value(), ok) == StorageStep(old(env.w), old(instance.Value()), config)
    {
      hide NameStep, VerifyStep, Create, Save, Tagged;
      if instance.name == "" {
        ok := SetInstanceBucketName(env, instance);
        if !ok {
          return;
        }
      } else if !instance.provisioned {
        var created := env.CreateBucket(instance.name, NewBucket(config.region));
        match created {
          case NotCreated => return false;
          case Taken =>
            instance.name := "";
            ok := instance.StatusUpdate(env);
            return;
          case _ =>
        }
        ok := TagBucket(env, instance.name, config.infraName);
        if !ok {
          return;
        }
      }
      ok := VerifyAndEnforce(env, instance);
    }

    method VerifyAndEnforce(env: Env, instance: VeleroInstall) returns (ok: bool)
      modifies env, instance
      ensures Reply(env.w, instance.Value(), ok) == VerifyStep(old(env.w), old(instance.Value()), config)
    {
      hide Head, Put, Save, Tagged;
      var found := env.HeadBucket(instance.name);
      if found.Failed? {
        return false;
      }
      if found.Absent? {
        instance.provisioned := false;
        ok := instance.StatusUpdate(env);
        return;
      }
      ok := env.PutSetting(instance.name, Encrypt);
      if !ok {
        return;
      }
      ok := env.PutSetting(instance.name, BlockPublicAccess);
      if !ok {
        return;
      }
      ok := env.PutSetting(instance.name, SetLifecycle);
      if !ok {
        return;
      }
      ok := TagBucket(env, instance.name, config.infraName);
      if !ok {
        return;
      }
      instance.provisioned := true;
      instance.lastSync := Some(env.w.clock);
      ok := instance.StatusUpdate(env);
    }
  }
}
