/** The abstract provisioning machine that both storage drivers implement.

    A status is unnamed, proposed or lost (named, not provisioned), or recovered or synced (named and
    provisioned). The machine says which status may follow which, and what must have happened for it. */
module Phases {
  import opened Options
  import opened Cloud
  import S3Bucket
  import GcsBucket

  datatype Platform = Aws | Gcp

  const BUCKET_PREFIX := "managed-velero-backups-"

  /** The change was made to the bucket. */
  predicate Set(e: Event, name: string, c: Change) { e.Did? && e.name == name && e.change == c }

  /** A complete enforcement pass on one bucket, ending with the status that records it. Its sync time is
      when the last setting was acknowledged. */
  ghost predicate FullSync(p: Platform, infraName: string, s: Status, seg: seq<Event>) {
    && s.name != "" && s.provisioned && s.lastSync.Some?
    && |seg| >= 3
    && seg[0].Seen? && seg[0].name == s.name
    && (forall i :: 0 <= i < |seg| ==> seg[i].Timed())
    && (forall i, j :: 0 <= i < j < |seg| ==> seg[i].at <= seg[j].at)
    && seg[|seg| - 2].at == s.lastSync.value
    && seg[|seg| - 1].Saved? && seg[|seg| - 1].status == s
    && match p
       case Aws =>
         && |seg| == 7
         && Set(seg[1], s.name, Encrypt)
         && Set(seg[2], s.name, BlockPublicAccess)
         && Set(seg[3], s.name, SetLifecycle)
         && Set(seg[4], s.name, ClearTags)
         && seg[5].Did? && seg[5].name == s.name && seg[5].change.PutTags?
         && S3Bucket.AreOurTags(seg[5].change.tags, infraName)
       case Gcp =>
         && |seg| == 3
         && Set(seg[1], s.name, MergeLabels(GcsBucket.OurLabels(infraName)))
  }

  ghost predicate FullSyncAt(p: Platform, infraName: string, s: Status, log: seq<Event>, i: nat, j: nat) {
    i <= j <= |log| && FullSync(p, infraName, s, log[i..j])
  }

  /** The log holds, without interruption, a complete pass recorded by `s`. */
  ghost predicate Witnessed(p: Platform, infraName: string, s: Status, log: seq<Event>) {
    exists i: nat, j: nat :: FullSyncAt(p, infraName, s, log, i, j)
  }

  lemma WitnessLasts(p: Platform, infraName: string, s: Status, log: seq<Event>, log': seq<Event>)
    requires Witnessed(p, infraName, s, log) && log <= log'
    ensures Witnessed(p, infraName, s, log')
  {
    var i: nat, j: nat :| FullSyncAt(p, infraName, s, log, i, j);
    assert log'[i..j] == log[i..j];
    assert FullSyncAt(p, infraName, s, log', i, j);
  }

  // ---- Moves between statuses ----

  /** A name is proposed after a lookup did not find it. */
  ghost predicate Propose(s: Status, t: Status, log: seq<Event>, from: nat) {
    && s.name == "" && BUCKET_PREFIX <= t.name && t == Status(t.name, false, s.lastSync)
    && Occurs(Missed(t.name), log, from)
  }

  /** A name is recovered from a listing. */
  ghost predicate Recover(s: Status, t: Status, log: seq<Event>, from: nat) {
    && s.name == "" && t.name != "" && t == Status(t.name, true, s.lastSync)
    && Sighted(t.name, log, from)
  }

  /** A bucket counts as lost after a lookup did not find it. */
  ghost predicate Lose(s: Status, t: Status, log: seq<Event>, from: nat) {
    && s.name != "" && t == s.(provisioned := false)
    && Occurs(Missed(s.name), log, from)
  }

  /** S3 gives a name up when somebody else turns out to hold it. */
  ghost predicate Release(p: Platform, s: Status, t: Status, log: seq<Event>, from: nat) {
    && p.Aws? && s.name != "" && !s.provisioned && t == s.(name := "")
    && Occurs(Denied(s.name), log, from)
  }

  /** Only a completed pass may set the sync time, and it keeps the name. */
  ghost predicate Sync(p: Platform, infraName: string, s: Status, t: Status, w: World, w': World) {
    && s.name != "" && t.name == s.name && t.lastSync.Some? && w.clock <= t.lastSync.value <= w'.clock
    && Witnessed(p, infraName, t, w'.log)
  }

  /** A move rests on what happened between `w` and `w'`. */
  ghost predicate Move(p: Platform, infraName: string, s: Status, t: Status, w: World, w': World) {
    var log, from := w'.log, |w.log|;
    || Propose(s, t, log, from) || Recover(s, t, log, from) || Lose(s, t, log, from)
    || Release(p, s, t, log, from) || Sync(p, infraName, s, t, w, w')
  }

  /** What any one driver call does, whatever fails and whoever interferes: it makes at most one move on
      GCS and at most two on S3, only from the latest persisted version, it creates at most the bucket
      named by the status it was given, and it succeeds only if it persisted its last move. */
  ghost predicate Call(p: Platform, infraName: string, w: World, inst: Instance, r: Reply) {
    var w' := r.w;
    var n := |w.saved|;
    && Extends(w, w')
    && |w'.saved| <= n + (if p.Aws? then 2 else 1)
    && (|w'.saved| > n ==>
          inst.version + 1 == n && Move(p, infraName, inst.status, w'.saved[n], w, w'))
    && (|w'.saved| > n + 1 ==>
          inst.status.name == "" && Move(p, infraName, w'.saved[n], w'.saved[n + 1], w, w'))
    && (r.ok ==> |w'.saved| > n && r.inst == Instance(w'.saved[|w'.saved| - 1], |w'.saved| - 1))
    && NewEvents(w, inst.status, w')
    && (NoDeletion(w) ==> Keeps(w, w'))
    && (forall k :: n <= k < |w'.saved| ==> Recorded(w'.saved[k], w'.log))
  }

  /** The status was persisted at some time. */
  ghost predicate Recorded(s: Status, log: seq<Event>) {
    exists i :: 0 <= i < |log| && log[i].Saved? && log[i].status == s
  }

  /** The end of a call: at most one move, and nothing is created. */
  ghost predicate Tail(p: Platform, infraName: string, w: World, inst: Instance, r: Reply) {
    && Call(p, infraName, w, inst, r)
    && |r.w.saved| <= |w.saved| + 1
    && forall i :: |w.log| <= i < |r.w.log| ==> !r.w.log[i].Made? && !r.w.log[i].Denied?
  }

  lemma TailIsCall(p: Platform, infraName: string, w: World, inst: Instance, r: Reply)
    requires Tail(p, infraName, w, inst, r)
    ensures Call(p, infraName, w, inst, r)
  {
  }

  /** Events are dated within the call. Without outside deletions a created bucket was missing before and is
      ours afterwards, and a denied name is somebody else's. */
  ghost predicate NewEvents(w: World, s: Status, w': World)
    requires w.log <= w'.log
  {
    && (forall i :: |w.log| <= i < |w'.log| ==>
          match w'.log[i]
          case Made(n) =>
            n == s.name && n != "" && !s.provisioned && (NoDeletion(w) ==> n !in w.cloud && w'.Mine(n))
          case Denied(n) => NoDeletion(w) ==> w'.Theirs(n)
          case Provisioning(_, _) => false
          case Seen(_, at) => w.clock <= at <= w'.clock
          case Did(_, _, at) => w.clock <= at <= w'.clock
          case Saved(_, at) => w.clock <= at <= w'.clock
          case _ => true)
    && (forall i, j :: |w.log| <= i < j < |w'.log| ==> !(w'.log[i].Made? && w'.log[j].Made?))
  }

  /** What comes before the tail of a call may create the bucket but persists nothing. */
  lemma Prefixed(p: Platform, infraName: string, w: World, w1: World, inst: Instance, r: Reply)
    requires Stays(w, w1) && w.log <= w1.log && (NoDeletion(w) ==> Keeps(w, w1))
    requires NewEvents(w, inst.status, w1)
    requires Tail(p, infraName, w1, inst, r)
    ensures Call(p, infraName, w, inst, r)
  {
    hide Witnessed, Recorded;
  }

  lemma OccursOn(e: Event, log: seq<Event>, log': seq<Event>, from: nat)
    requires log <= log'
    ensures Occurs(e, log, from) ==> Occurs(e, log', from)
  {
    if Occurs(e, log, from) {
      var i :| from <= i < |log| && log[i] == e;
      assert log'[i] == e;
    }
  }

  lemma OccursAt(e: Event, log: seq<Event>, from: nat, i: nat)
    requires from <= i < |log| && log[i] == e
    ensures Occurs(e, log, from)
  {
  }

  lemma SightedOn(name: string, log: seq<Event>, log': seq<Event>, from: nat)
    requires log <= log'
    ensures Sighted(name, log, from) ==> Sighted(name, log', from)
  {
    if Sighted(name, log, from) {
      var i :| from <= i < |log| && log[i].Listed? && name in log[i].names;
      assert log'[i] == log[i];
    }
  }

  /** A move is still justified in a longer stretch of history. */
  lemma MoveWidens(p: Platform, infraName: string, s: Status, t: Status, w: World, w1: World, w2: World, w': World)
    requires Extends(w, w1) && Extends(w1, w2) && Extends(w2, w') && Move(p, infraName, s, t, w1, w2)
    ensures Move(p, infraName, s, t, w, w')
  {
    hide Witnessed;
    forall e | e == Missed(t.name) || e == Missed(s.name) || e == Denied(s.name)
      ensures Occurs(e, w2.log, |w1.log|) ==> Occurs(e, w'.log, |w.log|)
    {
      OccursOn(e, w2.log, w'.log, |w1.log|);
    }
    SightedOn(t.name, w2.log, w'.log, |w1.log|);
    if Sync(p, infraName, s, t, w1, w2) {
      WitnessLasts(p, infraName, t, w2.log, w'.log);
    }
  }

  lemma RecordsLast(w: World, w': World)
    requires w.log <= w'.log
    ensures forall s :: Recorded(s, w.log) ==> Recorded(s, w'.log)
  {
    forall s | Recorded(s, w.log) ensures Recorded(s, w'.log) {
      var i :| 0 <= i < |w.log| && w.log[i].Saved? && w.log[i].status == s;
      assert w'.log[i] == w.log[i];
    }
  }

  /** On S3 a call that starts without a name may make two moves: it names a bucket and goes on from there. */
  lemma TwoMoves(infraName: string, w: World, inst: Instance, r: Reply, r': Reply)
    requires inst.status.name == "" && Tail(Aws, infraName, w, inst, r) && r.ok
    requires Tail(Aws, infraName, r.w, r.inst, r')
    ensures Call(Aws, infraName, w, inst, r')
  {
    hide Move, Recorded, NewEvents;
    var n := |w.saved|;
    MoveWidens(Aws, infraName, inst.status, r.w.saved[n], w, w, r.w, r'.w);
    if |r'.w.saved| > n + 1 {
      MoveWidens(Aws, infraName, r.w.saved[n], r'.w.saved[n + 1], w, r.w, r'.w, r'.w);
    }
    RecordsLast(r.w, r'.w);
    assert NewEvents(w, inst.status, r'.w) by {
      NewEventsOfTwo(w, inst.status, r.w, r.inst.status, r'.w);
    }
  }

  lemma NewEventsOfTwo(w: World, s: Status, w1: World, t: Status, w': World)
    requires Extends(w, w1) && Extends(w1, w') && NewEvents(w, s, w1) && NewEvents(w1, t, w')
    requires forall i :: |w.log| <= i < |w'.log| ==> !w'.log[i].Made? && !w'.log[i].Denied?
    ensures NewEvents(w, s, w')
  {
  }

  /** Lookups, listings and settings: nothing is created or persisted. */
  ghost predicate Quiet(w: World, w1: World) {
    && Stays(w, w1) && w.log <= w1.log && (NoDeletion(w) ==> Keeps(w, w1))
    && forall i :: |w.log| <= i < |w1.log| ==>
         var e := w1.log[i]; e.Missed? || e.Listed? || ((e.Seen? || e.Did?) && w.clock <= e.at <= w1.clock)
  }

  lemma QuietThenTail(p: Platform, infraName: string, w: World, w1: World, inst: Instance, r: Reply)
    requires Quiet(w, w1) && Tail(p, infraName, w1, inst, r)
    ensures Tail(p, infraName, w, inst, r)
  {
    hide Witnessed, Recorded;
  }

  /** Ending a call with a status update for what was just observed. */
  lemma SavingIsTail(p: Platform, infraName: string, w: World, w1: World, inst: Instance, t: Status)
    requires Quiet(w, w1)
    requires || Propose(inst.status, t, w1.log, |w.log|) || Recover(inst.status, t, w1.log, |w.log|)
             || Lose(inst.status, t, w1.log, |w.log|)
    ensures Tail(p, infraName, w, inst, Saving(w1, inst.(status := t)))
  {
    hide Save, Occurs, Sighted, Witnessed, Recorded;
    var r := Saving(w1, inst.(status := t));
    OccursOn(Missed(t.name), w1.log, r.w.log, |w.log|);
    OccursOn(Missed(inst.status.name), w1.log, r.w.log, |w.log|);
    SightedOn(t.name, w1.log, r.w.log, |w.log|);
    if r.w.saved != w.saved {
      LastIsRecorded(t, w1.log, r.w.log, r.w.clock);
    }
  }

  lemma LastIsRecorded(s: Status, log: seq<Event>, log': seq<Event>, at: nat)
    requires log' == log + [Saved(s, at)]
    ensures Recorded(s, log')
  {
    assert log'[|log|] == Saved(s, at);
  }

  /** Both drivers adopt a bucket they found, or propose a name that a lookup shows to be unused. */
  function AdoptOrPropose(w: World, inst: Instance, existing: string): Reply {
    if existing != "" then
      Saving(w, inst.(status := Status(existing, true, inst.status.lastSync)))
    else
      var proposed := BUCKET_PREFIX + w.Turn().uuid;
      var (w1, a) := Head(w, proposed);
      if !a.Absent? then Reply(w1, inst, false)
      else Saving(w1, inst.(status := Status(proposed, false, inst.status.lastSync)))
  }

  /** A proposed name is only persisted after a lookup did not find it: it was free at that moment unless
      the cloud itself hid the bucket. */
  lemma ProposalWasFree(w: World, inst: Instance)
    requires AdoptOrPropose(w, inst, "").w.saved != w.saved
    ensures var saved := AdoptOrPropose(w, inst, "").w.saved;
            && |saved| == |w.saved| + 1
            && BUCKET_PREFIX <= saved[|w.saved|].name
            && (w.Turn().fate.Hidden? || saved[|w.saved|].name !in w.Next().cloud)
  {
    hide Save;
  }

  /** The name step, after a listing that ended in `w1`. */
  lemma AdoptOrProposeIsTail(p: Platform, infraName: string, w: World, w1: World, inst: Instance, existing: string)
    requires inst.status.name == "" && Quiet(w, w1)
    requires existing != "" ==> Sighted(existing, w1.log, |w.log|)
    ensures var r := AdoptOrPropose(w1, inst, existing);
            Tail(p, infraName, w, inst, r) && (r.ok ==> r.inst.status.name != "")
  {
    hide Head, Save, Tail;
    if existing != "" {
      SavingIsTail(p, infraName, w, w1, inst, Status(existing, true, inst.status.lastSync));
    } else {
      var proposed := BUCKET_PREFIX + w1.Turn().uuid;
      var (w2, a) := Head(w1, proposed);
      if a.Absent? {
        assert w2.log[|w1.log|] == Missed(proposed);
        assert proposed != "";
        SavingIsTail(p, infraName, w, w2, inst, Status(proposed, false, inst.status.lastSync));
      } else {
        QuietIsTail(p, infraName, w, w2, inst);
      }
    }
  }

  /** A call that failed before it persisted anything. */
  lemma QuietIsTail(p: Platform, infraName: string, w: World, w1: World, inst: Instance)
    requires Quiet(w, w1)
    ensures Tail(p, infraName, w, inst, Reply(w1, inst, false))
  {
  }
}
