/** The world the operator acts on: object-store buckets, the persisted VeleroInstall status, a clock,
    and a schedule of what goes wrong.

    Every remote call consumes one `Turn` of the schedule. A turn says what outsiders do to the buckets
    just before the call, how much time passes, and whether the call is served. Quantifying over all
    schedules therefore covers every failure at every call and every outside interference. */
module Cloud {
  import opened Options

  /** Who holds a bucket name: the operator's own account (or project), or anybody else. */
  datatype Owner = Self | Other

  datatype Tag = Tag(key: string, val: string)

  datatype PublicAccess = PublicAccess(blockAcls: bool, blockPolicy: bool, ignoreAcls: bool, restrictBuckets: bool)

  datatype LifecycleRule = LifecycleRule(id: string, prefix: string, days: nat)

  /** `tags` is an S3 tag set (None: no tag set at all), `labels` the GCS labels. */
  datatype Settings = Settings(
    encryption: Option<string>,
    publicAccess: PublicAccess,
    lifecycle: seq<LifecycleRule>,
    tags: Option<seq<Tag>>,
    labels: map<string, string>)

  /** `location` is the S3 location constraint, absent for us-east-1. */
  datatype Bucket = Bucket(owner: Owner, location: Option<string>, settings: Settings)

  const OPEN_ACCESS := PublicAccess(false, false, false, false)
  const NO_SETTINGS := Settings(None, OPEN_ACCESS, [], None, map[])

  /** The three persisted fields of VeleroInstall.Status.StorageBucket. */
  datatype Status = Status(name: string, provisioned: bool, lastSync: Option<nat>)

  /** A copy of the object in the operator's memory, with the resource version it was read at. */
  datatype Instance = Instance(status: Status, version: nat)

  /** One settings call on a bucket. */
  datatype Change =
    | Encrypt
    | BlockPublicAccess
    | SetLifecycle
    | ClearTags
    | PutTags(tags: seq<Tag>)
    | MergeLabels(labels: map<string, string>)

  /** What the operator saw and did, and when; `Made` and `Saved` are recorded whenever they took effect. */
  datatype Event =
    | Seen(name: string, at: nat)
    | Missed(name: string)
    | Listed(names: seq<string>)
    | Did(name: string, change: Change, at: nat)
    | Made(name: string)
    | Denied(name: string)
    | Saved(status: Status, at: nat)
    | Provisioning(status: Status, at: nat)
  {
    predicate Timed() { Seen? || Did? || Saved? || Provisioning? }
  }

  /** Served: answered normally. Refused: fails without effect. Lost: takes effect, but the answer is
      an error. Hidden: a lookup answers as if the bucket did not exist (delays in the cloud's API). */
  datatype Fate = Served | Refused | Lost | Hidden

  datatype Turn = Turn(
    fate: Fate,
    tick: nat,
    gone: set<string>,
    born: map<string, Bucket>,
    edits: map<string, Settings>,
    order: seq<string>,
    slot: nat,
    lag: nat,
    uuid: string)

  datatype World = World(
    cloud: map<string, Bucket>,
    saved: seq<Status>,
    clock: nat,
    log: seq<Event>,
    turns: nat -> Turn,
    pos: nat)
  {
    function Turn(): Turn { turns(pos) }

    /** Outsiders act and time passes. */
    function Next(): World {
      this.(cloud := Disturbed(cloud, Turn()), clock := clock + Turn().tick, pos := pos + 1)
    }

    function Noted(e: Event): World { this.(log := log + [e]) }

    predicate Mine(name: string) { name in cloud && cloud[name].owner.Self? }

    predicate Theirs(name: string) { name in cloud && cloud[name].owner.Other? }
  }

  /** Outsiders may delete any bucket, take any free name, and rewrite any settings. */
  function Disturbed(cloud: map<string, Bucket>, t: Turn): (r: map<string, Bucket>)
    ensures t.gone == {} ==> forall n :: n in cloud ==> n in r && r[n].owner == cloud[n].owner
    ensures CalmTurn(t) ==> r == cloud
  {
    map n | n in (cloud.Keys - t.gone) + t.born.Keys ::
      if n in cloud && n !in t.gone then
        if n in t.edits then cloud[n].(settings := t.edits[n]) else cloud[n]
      else t.born[n]
  }

  /** Nobody interferes and the call is served; time may still pass. */
  predicate CalmTurn(t: Turn) {
    t.fate.Served? && t.gone == {} && t.born == map[] && t.edits == map[] && t.lag == 0
  }

  ghost predicate Calm(w: World) {
    forall i: nat :: w.pos <= i ==> CalmTurn(w.turns(i))
  }

  /** No outsider ever deletes a bucket. */
  ghost predicate NoDeletion(w: World) {
    forall i: nat :: w.pos <= i ==> w.turns(i).gone == {}
  }

  function Applied(s: Settings, c: Change): Settings {
    match c
    case Encrypt => s.(encryption := Some("AES256"))
    case BlockPublicAccess => s.(publicAccess := PublicAccess(true, true, true, true))
    case SetLifecycle => s.(lifecycle := [LifecycleRule("Backup Expiry", "backups/", 90)])
    case ClearTags => s.(tags := None)
    case PutTags(tags) => s.(tags := Some(tags))
    case MergeLabels(labels) => s.(labels := s.labels + labels)
  }

  /** Time passes and nothing is persisted. */
  ghost predicate Stays(w: World, w': World) {
    w'.turns == w.turns && w.pos <= w'.pos && w.clock <= w'.clock && w'.saved == w.saved
  }

  // ---- Remote calls ----

  datatype Lookup = Found | Absent | Failed

  /** HeadBucket (S3), Bucket.Attrs (GCS). */
  function Head(w: World, name: string): (r: (World, Lookup))
    ensures Stays(w, r.0) && (NoDeletion(w) ==> Keeps(w, r.0))
    ensures r.0.log == w.log + if r.1.Found? then [Seen(name, r.0.clock)]
                               else if r.1.Absent? then [Missed(name)] else []
  {
    var w1 := w.Next();
    if w.Turn().fate.Refused? || w.Turn().fate.Lost? then (w1, Failed)
    else if w.Turn().fate.Hidden? || name !in w1.cloud then (w1.Noted(Missed(name)), Absent)
    else if w1.cloud[name].owner.Other? then (w1, Failed)
    else (w1.Noted(Seen(name, w1.clock)), Found)
  }

  /** A settings call; it fails on a bucket that is missing or held by somebody else. */
  function Put(w: World, name: string, c: Change): (r: (World, bool))
    ensures Stays(w, r.0) && (NoDeletion(w) ==> Keeps(w, r.0))
    ensures r.0.log == w.log + if r.1 then [Did(name, c, r.0.clock)] else []
  {
    var w1 := w.Next();
    if w.Turn().fate.Refused? || w.Turn().fate.Hidden? || !w1.Mine(name) then (w1, false)
    else
      var b := w1.cloud[name];
      var w2 := w1.(cloud := w1.cloud[name := b.(settings := Applied(b.settings, c))]);
      if w.Turn().fate.Lost? then (w2, false) else (w2.Noted(Did(name, c, w2.clock)), true)
  }

  datatype Creation = Fresh | Yours | Taken | NotCreated

  function Create(w: World, name: string, b: Bucket): (r: (World, Creation))
    requires b.owner.Self?
    ensures Stays(w, r.0) && (NoDeletion(w) ==> Keeps(w, r.0))
    ensures w.log <= r.0.log && |r.0.log| <= |w.log| + 1
    ensures |r.0.log| > |w.log| ==>
              if r.1.Taken? then r.0.log[|w.log|] == Denied(name) && r.0.Theirs(name)
              else r.0.log[|w.log|] == Made(name) && r.0.Mine(name)
    ensures r.1.Taken? || r.1.Fresh? ==> |r.0.log| > |w.log|
    ensures NoDeletion(w) && r.0.log == w.log + [Made(name)] ==> name !in w.cloud
  {
    var w1 := w.Next();
    if w.Turn().fate.Refused? || w.Turn().fate.Hidden? then (w1, NotCreated)
    else if name in w1.cloud then
      if w.Turn().fate.Lost? then (w1, NotCreated)
      else if w1.cloud[name].owner.Self? then (w1, Yours)
      else (w1.Noted(Denied(name)), Taken)
    else
      var w2 := w1.(cloud := w1.cloud[name := b]).Noted(Made(name));
      (w2, if w.Turn().fate.Lost? then NotCreated else Fresh)
  }

  /** The account's own buckets, in the order the service happens to list them; a listing may lag. */
  function List(w: World): (r: (World, Option<seq<string>>))
    ensures Stays(w, r.0) && (NoDeletion(w) ==> Keeps(w, r.0))
    ensures r.0.log == w.log + if r.1.Some? then [Listed(r.1.value)] else []
  {
    var w1 := w.Next();
    if w.Turn().fate.Refused? || w.Turn().fate.Lost? then (w1, None)
    else
      var names := Own(w1, w.Turn().order);
      (w1.Noted(Listed(names)), Some(names))
  }

  function Own(w: World, names: seq<string>): (r: seq<string>)
    ensures forall n :: n in r <==> n in names && w.Mine(n)
  {
    if names == [] then []
    else (if w.Mine(names[0]) then [names[0]] else []) + Own(w, names[1..])
  }

  datatype Located = At(constraint: Option<string>) | Nowhere | NotLocated

  /** GetBucketLocation. */
  function Locate(w: World, name: string): (World, Located) {
    var w1 := w.Next();
    if w.Turn().fate.Refused? || w.Turn().fate.Lost? then (w1, NotLocated)
    else if w.Turn().fate.Hidden? || name !in w1.cloud then (w1, Nowhere)
    else if w1.cloud[name].owner.Other? then (w1, NotLocated)
    else (w1, At(w1.cloud[name].location))
  }

  datatype Tagging = TagSet(tags: seq<Tag>) | NoTagSet | NotTagged

  /** GetBucketTagging; a missing bucket and a missing tag set are both skipped by the caller. */
  function GetTagging(w: World, name: string): (World, Tagging) {
    var w1 := w.Next();
    if w.Turn().fate.Refused? || w.Turn().fate.Lost? then (w1, NotTagged)
    else if w.Turn().fate.Hidden? || name !in w1.cloud then (w1, NoTagSet)
    else if w1.cloud[name].owner.Other? then (w1, NotTagged)
    else match w1.cloud[name].settings.tags
      case None => (w1, NoTagSet)
      case Some(tags) => (w1, TagSet(tags))
  }

  datatype Loaded = Got(inst: Instance) | NotFound | NotLoaded

  /** Reads the VeleroInstall through a cache that may lag behind by any number of versions. */
  function Load(w: World): (r: (World, Loaded))
    ensures Stays(w, r.0) && r.0.log == w.log
  {
    var w1 := w.Next();
    if w.Turn().fate.Refused? || w.Turn().fate.Lost? then (w1, NotLoaded)
    else if w.Turn().fate.Hidden? || |w1.saved| == 0 then (w1, NotFound)
    else
      var v := if w.Turn().lag < |w1.saved| then |w1.saved| - 1 - w.Turn().lag else 0;
      (w1, Got(Instance(w1.saved[v], v)))
  }

  /** Status().Update: rejected unless the caller's copy is the latest version. */
  function Save(w: World, inst: Instance): (r: (World, Instance, bool))
    ensures r.0.turns == w.turns && w.pos <= r.0.pos && w.clock <= r.0.clock
    ensures NoDeletion(w) ==> Keeps(w, r.0)
    ensures if r.0.saved == w.saved then r.0.log == w.log && !r.2
            else && inst.version + 1 == |w.saved|
                 && r.0.saved == w.saved + [inst.status] && r.0.log == w.log + [Saved(inst.status, r.0.clock)]
    ensures r.2 ==> r.0.saved != w.saved
    ensures r.1 == if r.2 then Instance(inst.status, inst.version + 1) else inst
  {
    var w1 := w.Next();
    if w.Turn().fate.Refused? || w.Turn().fate.Hidden? || inst.version + 1 != |w1.saved| then (w1, inst, false)
    else
      var w2 := w1.(saved := w1.saved + [inst.status]).Noted(Saved(inst.status, w1.clock));
      if w.Turn().fate.Lost? then (w2, inst, false) else (w2, inst.(version := inst.version + 1), true)
  }

  /** Any other read that can fail, such as fetching the infrastructure status. */
  function Ping(w: World): (World, bool) {
    (w.Next(), w.Turn().fate.Served?)
  }

  /** The result of a driver call. */
  datatype Reply = Reply(w: World, inst: Instance, ok: bool)

  /** Persists the copy and ends the call with the outcome of that update. */
  function Saving(w: World, inst: Instance): Reply {
    var (w1, inst1, ok) := Save(w, inst);
    Reply(w1, inst1, ok)
  }

  // ---- What any activity keeps ----

  ghost predicate Extends(w: World, w': World) {
    && w'.turns == w.turns && w.pos <= w'.pos && w.clock <= w'.clock
    && w.saved <= w'.saved && w.log <= w'.log
  }

  /** Extends, without a status write. */
  ghost predicate Reads(w: World, w': World) {
    && w'.turns == w.turns && w.pos <= w'.pos && w.clock <= w'.clock
    && w'.saved == w.saved && w'.log == w.log
    && (NoDeletion(w) ==> Keeps(w, w'))
    && (Calm(w) ==> w'.cloud == w.cloud)
  }

  /** Reads, and notes what listings came back. */
  ghost predicate Browses(w: World, w': World) {
    && Stays(w, w') && w.log <= w'.log
    && (forall i :: |w.log| <= i < |w'.log| ==> w'.log[i].Listed?)
    && (NoDeletion(w) ==> Keeps(w, w'))
    && (Calm(w) ==> w'.cloud == w.cloud)
  }

  /** The event is in the log, at `from` or later. */
  ghost predicate Occurs(e: Event, log: seq<Event>, from: nat) {
    exists i :: from <= i < |log| && log[i] == e
  }

  /** The name came up in a listing, at `from` or later. */
  ghost predicate Sighted(name: string, log: seq<Event>, from: nat) {
    exists i :: from <= i < |log| && log[i].Listed? && name in log[i].names
  }

  /** Nobody lost a bucket or a name. */
  ghost predicate Keeps(w: World, w': World) {
    forall n :: n in w.cloud ==> n in w'.cloud && w'.cloud[n].owner == w.cloud[n].owner
  }

  /** The environment as an object: drivers call it and its world moves on. */
  class Env {
    var w: World

    constructor (w: World)
      ensures this.w == w
    {
      this.w := w;
    }

    method HeadBucket(name: string) returns (a: Lookup)
      modifies this
      ensures (w, a) == Head(old(w), name)
    {
      var r := Head(w, name);
      w := r.0;
      a := r.1;
    }

    method PutSetting(name: string, c: Change) returns (ok: bool)
      modifies this
      ensures (w, ok) == Put(old(w), name, c)
    {
      var r := Put(w, name, c);
      w := r.0;
      ok := r.1;
    }

    method CreateBucket(name: string, b: Bucket) returns (a: Creation)
      requires b.owner.Self?
      modifies this
      ensures (w, a) == Create(old(w), name, b)
    {
      var r := Create(w, name, b);
      w := r.0;
      a := r.1;
    }

    method ListBuckets() returns (a: Option<seq<string>>)
      modifies this
      ensures (w, a) == List(old(w))
    {
      var r := List(w);
      w := r.0;
      a := r.1;
    }

    method GetBucketLocation(name: string) returns (a: Located)
      modifies this
      ensures (w, a) == Locate(old(w), name)
    {
      var r := Locate(w, name);
      w := r.0;
      a := r.1;
    }

    method GetBucketTagging(name: string) returns (a: Tagging)
      modifies this
      ensures (w, a) == GetTagging(old(w), name)
    {
      var r := GetTagging(w, name);
      w := r.0;
      a := r.1;
    }
  }

  /** The operator's working copy of the custom resource. */
  class VeleroInstall {
    var name: string
    var provisioned: bool
    var lastSync: Option<nat>
    var version: nat

    constructor (inst: Instance)
      ensures Value() == inst
    {
      name, provisioned, lastSync := inst.status.name, inst.status.provisioned, inst.status.lastSync;
      version := inst.version;
    }

    function Value(): Instance
      reads this
    {
      Instance(Status(name, provisioned, lastSync), version)
    }

    /** StatusUpdate: the only way status is persisted. */
    method StatusUpdate(env: Env) returns (ok: bool)
      modifies this, env
      ensures (env.w, Value(), ok) == Save(old(env.w), old(Value()))
    {
      var r := Save(env.w, Value());
      env.w := r.0;
      version := r.1.version;
      ok := r.2;
    }
  }
}
