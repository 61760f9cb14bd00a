/** Bucket discovery and tagging on S3 (pkg/storage/s3/bucket.go). */
module S3Bucket {
  import opened Options
  import opened Cloud

  const TAG_BACKUP_LOCATION := "velero.io/backup-location"
  const TAG_INFRA_NAME := "velero.io/infrastructureName"
  const DEFAULT_BACKUP_LOCATION := "default"
  const DEFAULT_REGION := "us-east-1"

  /** The constraint sent on creation: none in us-east-1. */
  function LocationConstraint(region: string): Option<string> {
    if region != DEFAULT_REGION then Some(region) else None
  }

  /** The region a stored constraint stands for. */
  function RegionOf(constraint: Option<string>): string {
    match constraint
    case None => DEFAULT_REGION
    case Some(region) => region
  }

  /** Sending and reading a constraint undo each other, and only us-east-1 is sent as none. */
  lemma LocationRoundTrip(region: string)
    ensures RegionOf(LocationConstraint(region)) == region
    ensures LocationConstraint(region).None? <==> region == "us-east-1"
  {
  }

  function NewBucket(region: string): Bucket {
    Bucket(Self, LocationConstraint(region), NO_SETTINGS)
  }

  /** The tag set is built by ranging over a two-entry map, so either order can come out. */
  function OurTags(infraName: string, slot: nat): (r: seq<Tag>)
    ensures AreOurTags(r, infraName)
  {
    var a, b := Tag(TAG_BACKUP_LOCATION, DEFAULT_BACKUP_LOCATION), Tag(TAG_INFRA_NAME, infraName);
    if slot % 2 == 0 then [a, b] else [b, a]
  }

  ghost predicate AreOurTags(tags: seq<Tag>, infraName: string) {
    var a, b := Tag(TAG_BACKUP_LOCATION, DEFAULT_BACKUP_LOCATION), Tag(TAG_INFRA_NAME, infraName);
    tags == [a, b] || tags == [b, a]
  }

  /** Clears the tag set, then writes ours; a failure in between leaves the bucket untagged. */
  function Tagged(w: World, name: string, infraName: string): (r: (World, bool))
    ensures Stays(w, r.0) && (NoDeletion(w) ==> Keeps(w, r.0))
    ensures w.log <= r.0.log
    ensures forall i :: |w.log| <= i < |r.0.log| ==> r.0.log[i].Did? && w.clock <= r.0.log[i].at <= r.0.clock
  {
    var (w1, ok) := Put(w, name, ClearTags);
    if !ok then (w1, false)
    else Put(w1, name, PutTags(OurTags(infraName, w1.Turn().slot)))
  }

  method TagBucket(env: Env, name: string, infraName: string) returns (ok: bool)
    modifies env
    ensures (env.w, ok) == Tagged(old(env.w), name, infraName)
  {
    ok := env.PutSetting(name, ClearTags);
    if ok {
      ok := env.PutSetting(name, PutTags(OurTags(infraName, env.w.Turn().slot)));
    }
  }

  // ---- Listing ----

  /** Looks every listed bucket up and appends those in the region; any unexpected error ends it. */
  function InRegion(w: World, names: seq<string>, region: string, kept: seq<string>): (r: (World, Option<seq<string>>))
    ensures Reads(w, r.0)
    ensures r.1.Some? ==> forall n :: n in r.1.value ==> n in kept || n in names
    ensures r.1.Some? && NoDeletion(w) ==> forall n :: n in r.1.value ==> n in kept || r.0.Mine(n)
    ensures Calm(w) && (forall n :: n in names ==> w.Mine(n)) ==> r.1.Some?
    decreases |names|
  {
    if names == [] then (w, Some(kept))
    else
      assert names[0] in names && forall n :: n in names[1..] ==> n in names;
      var (w1, a) := Locate(w, names[0]);
      match a
      case NotLocated => (w1, None)
      case Nowhere => InRegion(w1, names[1..], region, kept)
      case At(c) =>
        InRegion(w1, names[1..], region, if RegionOf(c) == region then kept + [names[0]] else kept)
  }

  function RegionListing(w: World, region: string): (r: (World, Option<seq<string>>))
    ensures Browses(w, r.0)
    ensures r.1.Some? ==> forall n :: n in r.1.value ==> Sighted(n, r.0.log, |w.log|)
    ensures r.1.Some? && NoDeletion(w) ==> forall n :: n in r.1.value ==> r.0.Mine(n)
    ensures Calm(w) ==> r.1.Some?
  {
    var (w1, names) := List(w);
    match names
    case None => (w1, None)
    case Some(ns) =>
      assert w1.log[|w.log|] == Listed(ns);
      InRegion(w1, ns, region, [])
  }

  method ListBucketsInRegion(env: Env, region: string) returns (r: Option<seq<string>>)
    modifies env
    ensures (env.w, r) == RegionListing(old(env.w), region)
  {
    var listed := env.ListBuckets();
    if listed.None? {
      return None;
    }
    var names, filtered := listed.value, [];
    ghost var w0 := env.w;
    for i := 0 to |names|
      invariant InRegion(w0, names, region, []) == InRegion(env.w, names[i..], region, filtered)
    {
      var a := env.GetBucketLocation(names[i]);
      match a {
        case NotLocated => return None;
        case Nowhere =>
        case At(c) =>
          if RegionOf(c) == region {
            filtered := filtered + [names[i]];
          }
      }
    }
    return Some(filtered);
  }

  /** One entry of the map from bucket name to tag set. A sequence of entries stands for the map together
      with the order in which it will be ranged over. */
  datatype Entry = Entry(bucket: string, tags: seq<Tag>)

  predicate HasKey(es: seq<Entry>, name: string) {
    exists i :: 0 <= i < |es| && es[i].bucket == name
  }

  /** Stores an entry: a present key keeps its place, a new one may land anywhere in the order. */
  function Store(es: seq<Entry>, e: Entry, slot: nat): (r: seq<Entry>)
    ensures forall n :: HasKey(r, n) <==> HasKey(es, n) || n == e.bucket
  {
    if HasKey(es, e.bucket) then
      var r := seq(|es|, i requires 0 <= i < |es| => if es[i].bucket == e.bucket then e else es[i]);
      assert forall i :: 0 <= i < |es| ==> r[i].bucket == es[i].bucket;
      r
    else
      var at := slot % (|es| + 1);
      var r := es[..at] + [e] + es[at..];
      assert r[at] == e;
      assert forall i :: 0 <= i < |es| ==> es[i] == r[if i < at then i else i + 1];
      r
  }

  /** Storing replaces the entry of that bucket, or adds one, and touches no other. */
  lemma StoreIsExact(es: seq<Entry>, e: Entry, slot: nat, x: Entry)
    ensures x in Store(es, e, slot) <==> x == e || (x in es && x.bucket != e.bucket)
  {
    if HasKey(es, e.bucket) {
      var i :| 0 <= i < |es| && es[i].bucket == e.bucket;
      assert Store(es, e, slot)[i] == e;
      if x in es && x.bucket != e.bucket {
        var j :| 0 <= j < |es| && es[j] == x;
        assert Store(es, e, slot)[j] == x;
      }
    } else {
      var at := slot % (|es| + 1);
      assert es == es[..at] + es[at..];
    }
  }

  /** The tag sets of the given buckets on top of `es`; untagged and vanished buckets have no key. */
  function TagList(w: World, names: seq<string>, es: seq<Entry>): (r: (World, Option<seq<Entry>>))
    ensures Reads(w, r.0)
    ensures r.1.Some? ==> forall n :: HasKey(r.1.value, n) ==> HasKey(es, n) || n in names
    ensures r.1.Some? && NoDeletion(w) ==> forall n :: HasKey(r.1.value, n) ==> HasKey(es, n) || r.0.Mine(n)
    ensures Calm(w) && (forall n :: n in names ==> w.Mine(n)) ==> r.1.Some?
    decreases |names|
  {
    if names == [] then (w, Some(es))
    else
      assert names[0] in names && forall n :: n in names[1..] ==> n in names;
      var (w1, a) := GetTagging(w, names[0]);
      if a.NotTagged? then (w1, None)
      else TagList(w1, names[1..], if a.TagSet? then Store(es, Entry(names[0], a.tags), w.Turn().slot) else es)
  }

  method ListBucketTags(env: Env, buckets: seq<string>) returns (r: Option<seq<Entry>>)
    modifies env
    ensures (env.w, r) == TagList(old(env.w), buckets, [])
  {
    var tagList: seq<Entry> := [];
    for i := 0 to |buckets|
      invariant TagList(old(env.w), buckets, []) == TagList(env.w, buckets[i..], tagList)
    {
      var slot := env.w.Turn().slot;
      var a := env.GetBucketTagging(buckets[i]);
      match a {
        case NotTagged => return None;
        case NoTagSet =>
        case TagSet(tags) => tagList := Store(tagList, Entry(buckets[i], tags), slot);
      }
    }
    return Some(tagList);
  }

  // ---- Matching ----

  predicate HasClusterTag(tags: seq<Tag>, infraName: string) {
    exists i :: 0 <= i < |tags| && tags[i].key == TAG_INFRA_NAME && tags[i].val == infraName
  }

  predicate HasVeleroTag(tags: seq<Tag>) {
    exists i :: 0 <= i < |tags| && tags[i].key == TAG_BACKUP_LOCATION
  }

  predicate Carries(e: Entry, infraName: string) {
    HasClusterTag(e.tags, infraName) || HasVeleroTag(e.tags)
  }

  predicate AnyCluster(es: seq<Entry>, infraName: string) {
    exists i :: 0 <= i < |es| && HasClusterTag(es[i].tags, infraName)
  }

  predicate AnyVelero(es: seq<Entry>) {
    exists i :: 0 <= i < |es| && HasVeleroTag(es[i].tags)
  }

  /** The last visited bucket carrying either tag. */
  function LastCarrier(es: seq<Entry>, infraName: string): string {
    if es == [] then ""
    else if Carries(es[|es| - 1], infraName) then es[|es| - 1].bucket
    else LastCarrier(es[..|es| - 1], infraName)
  }

  function Match(es: seq<Entry>, infraName: string): string {
    if AnyCluster(es, infraName) && AnyVelero(es) then LastCarrier(es, infraName) else ""
  }

  /** Flags and candidate persist from one bucket to the next. */
  method FindMatchingTags(buckets: seq<Entry>, infraName: string) returns (m: string)
    ensures m == Match(buckets, infraName)
  {
    var tagMatchesCluster, tagMatchesVelero := false, false;
    var possibleMatch := "";
    for i := 0 to |buckets|
      invariant tagMatchesCluster == AnyCluster(buckets[..i], infraName)
      invariant tagMatchesVelero == AnyVelero(buckets[..i])
      invariant possibleMatch == LastCarrier(buckets[..i], infraName)
    {
      var bucket, tags := buckets[i].bucket, buckets[i].tags;
      ghost var before := possibleMatch;
      ghost var cluster, velero := tagMatchesCluster, tagMatchesVelero;
      for j := 0 to |tags|
        invariant tagMatchesCluster == (cluster || HasClusterTag(tags[..j], infraName))
        invariant tagMatchesVelero == (velero || HasVeleroTag(tags[..j]))
        invariant possibleMatch == if Carries(Entry(bucket, tags[..j]), infraName) then bucket else before
      {
        assert tags[..j + 1] == tags[..j] + [tags[j]];
        SplitTags(tags[..j], tags[j], infraName);
        if tags[j].key == TAG_INFRA_NAME && tags[j].val == infraName {
          tagMatchesCluster, possibleMatch := true, bucket;
        }
        if tags[j].key == TAG_BACKUP_LOCATION {
          tagMatchesVelero, possibleMatch := true, bucket;
        }
      }
      assert tags[..|tags|] == tags;
      assert buckets[..i + 1] == buckets[..i] + [buckets[i]];
      SplitEntries(buckets[..i], buckets[i], infraName);
    }
    assert buckets[..|buckets|] == buckets;
    if tagMatchesCluster && tagMatchesVelero {
      return possibleMatch;
    }
    return "";
  }

  lemma SplitTags(tags: seq<Tag>, t: Tag, infraName: string)
    ensures HasClusterTag(tags + [t], infraName) <==>
            HasClusterTag(tags, infraName) || (t.key == TAG_INFRA_NAME && t.val == infraName)
    ensures HasVeleroTag(tags + [t]) <==> HasVeleroTag(tags) || t.key == TAG_BACKUP_LOCATION
  {
    var all := tags + [t];
    assert all[|tags|] == t;
    assert forall i :: 0 <= i < |tags| ==> all[i] == tags[i];
  }

  lemma SplitEntries(es: seq<Entry>, e: Entry, infraName: string)
    ensures AnyCluster(es + [e], infraName) <==> AnyCluster(es, infraName) || HasClusterTag(e.tags, infraName)
    ensures AnyVelero(es + [e]) <==> AnyVelero(es) || HasVeleroTag(e.tags)
    ensures LastCarrier(es + [e], infraName) == if Carries(e, infraName) then e.bucket else LastCarrier(es, infraName)
  {
    var all := es + [e];
    assert all[|es|] == e && all[..|es|] == es;
    assert forall i :: 0 <= i < |es| ==> all[i] == es[i];
  }

  // ---- What the matcher finds ----

  /** Keys of a map: distinct bucket names, none of them empty. */
  ghost predicate IsMap(es: seq<Entry>) {
    && (forall i :: 0 <= i < |es| ==> es[i].bucket != "")
    && (forall i, j :: 0 <= i < j < |es| ==> es[i].bucket != es[j].bucket)
  }

  lemma {:induction false} LastCarrierIsLast(es: seq<Entry>, infraName: string) returns (k: nat)
    requires exists i :: 0 <= i < |es| && Carries(es[i], infraName)
    ensures k < |es| && Carries(es[k], infraName) && LastCarrier(es, infraName) == es[k].bucket
    ensures forall j :: k < j < |es| ==> !Carries(es[j], infraName)
  {
    var n := |es| - 1;
    if Carries(es[n], infraName) {
      k := n;
    } else {
      var i :| 0 <= i < |es| && Carries(es[i], infraName);
      assert es[..n][i] == es[i];
      k := LastCarrierIsLast(es[..n], infraName);
      assert es[k] == es[..n][k];
      forall j | k < j < |es| ensures !Carries(es[j], infraName) {
        if j < n { assert es[j] == es[..n][j]; }
      }
    }
  }

  lemma MatchIsListed(es: seq<Entry>, infraName: string)
    ensures Match(es, infraName) != "" ==> HasKey(es, Match(es, infraName))
  {
    if Match(es, infraName) != "" {
      var i :| 0 <= i < |es| && HasClusterTag(es[i].tags, infraName);
      assert Carries(es[i], infraName);
      var k := LastCarrierIsLast(es, infraName);
    }
  }

  /** A name is returned exactly when both tags occur somewhere, possibly on different buckets, and it is
      then the last visited bucket carrying either of them. */
  lemma MatchFindsLastCarrier(es: seq<Entry>, infraName: string)
    requires IsMap(es)
    ensures Match(es, infraName) != "" <==> AnyCluster(es, infraName) && AnyVelero(es)
    ensures Match(es, infraName) != "" ==>
              exists k :: 0 <= k < |es| && es[k].bucket == Match(es, infraName) && Carries(es[k], infraName)
                          && forall j :: k < j < |es| ==> !Carries(es[j], infraName)
  {
    if AnyCluster(es, infraName) && AnyVelero(es) {
      var k := LastCarrierIsLast(es, infraName);
      assert es[k].bucket == Match(es, infraName);
    }
  }

  ghost predicate OnlyCarrier(es: seq<Entry>, infraName: string, k: nat) {
    k < |es| && forall j :: 0 <= j < |es| ==> (Carries(es[j], infraName) <==> j == k)
  }

  ghost predicate SoleCarrier(es: seq<Entry>, infraName: string) {
    exists k :: OnlyCarrier(es, infraName, k)
  }

  /** When the accumulated flags do no harm. */
  ghost predicate Unambiguous(es: seq<Entry>, infraName: string) {
    !AnyCluster(es, infraName) || !AnyVelero(es) || SoleCarrier(es, infraName)
  }

  /** The bucket a per-bucket match means to return. */
  predicate HasBoth(e: Entry, infraName: string) {
    HasClusterTag(e.tags, infraName) && HasVeleroTag(e.tags)
  }

  lemma PermutedIndex(es: seq<Entry>, p: seq<Entry>, i: nat) returns (k: nat)
    requires multiset(p) == multiset(es) && i < |es|
    ensures k < |p| && p[k] == es[i]
  {
    assert es[i] in multiset(es);
    assert es[i] in p;
    k :| 0 <= k < |p| && p[k] == es[i];
  }

  lemma PermutedFlags(es: seq<Entry>, p: seq<Entry>, infraName: string)
    requires multiset(p) == multiset(es)
    ensures AnyCluster(es, infraName) ==> AnyCluster(p, infraName)
    ensures AnyVelero(es) ==> AnyVelero(p)
  {
    if AnyCluster(es, infraName) {
      var i :| 0 <= i < |es| && HasClusterTag(es[i].tags, infraName);
      var k := PermutedIndex(es, p, i);
    }
    if AnyVelero(es) {
      var i :| 0 <= i < |es| && HasVeleroTag(es[i].tags);
      var k := PermutedIndex(es, p, i);
    }
  }

  /** The visit order that leaves entry `i` for last. */
  lemma VisitLast(es: seq<Entry>, infraName: string, i: nat) returns (p: seq<Entry>)
    requires i < |es| && Carries(es[i], infraName) && AnyCluster(es, infraName) && AnyVelero(es)
    ensures multiset(p) == multiset(es) && Match(p, infraName) == es[i].bucket
  {
    p := es[..i] + es[i + 1..] + [es[i]];
    assert es == es[..i] + [es[i]] + es[i + 1..];
    PermutedFlags(es, p, infraName);
    SplitEntries(es[..i] + es[i + 1..], es[i], infraName);
  }

  lemma SoleCarrierAnyOrder(es: seq<Entry>, p: seq<Entry>, infraName: string)
    requires IsMap(es) && multiset(p) == multiset(es) && SoleCarrier(es, infraName)
    ensures LastCarrier(p, infraName) == LastCarrier(es, infraName)
  {
    var k: nat :| OnlyCarrier(es, infraName, k);
    assert Carries(es[k], infraName);
    var a := LastCarrierIsLast(es, infraName);
    var i := PermutedIndex(es, p, k);
    var b := LastCarrierIsLast(p, infraName);
    var c := PermutedIndex(p, es, b);
  }

  /** The match is the same for every iteration order of the map if and only if one of the tags is absent
      everywhere or exactly one bucket carries either. */
  lemma MatchOrderIndependent(es: seq<Entry>, infraName: string)
    requires IsMap(es)
    ensures (forall p :: multiset(p) == multiset(es) ==> Match(p, infraName) == Match(es, infraName))
            <==> Unambiguous(es, infraName)
  {
    if Unambiguous(es, infraName) {
      forall p | multiset(p) == multiset(es) ensures Match(p, infraName) == Match(es, infraName) {
        PermutedFlags(es, p, infraName);
        PermutedFlags(p, es, infraName);
        if AnyCluster(es, infraName) && AnyVelero(es) {
          SoleCarrierAnyOrder(es, p, infraName);
        }
      }
    } else {
      var k := LastCarrierIsLast(es, infraName);
      assert !OnlyCarrier(es, infraName, k);
      var j :| 0 <= j < |es| && (Carries(es[j], infraName) <==> j != k);
      var p := VisitLast(es, infraName, j);
      assert Match(p, infraName) != Match(es, infraName);
    }
  }

  /** The result of a per-bucket match: a bucket carrying both tags, or nothing if there is none. */
  ghost predicate FindsOne(es: seq<Entry>, infraName: string, m: string) {
    if m == "" then forall i :: 0 <= i < |es| ==> !HasBoth(es[i], infraName)
    else exists i :: 0 <= i < |es| && es[i].bucket == m && HasBoth(es[i], infraName)
  }

  /** No bucket carries just one of the tags while the other one is in use. */
  ghost predicate NoStray(es: seq<Entry>, infraName: string) {
    || !AnyCluster(es, infraName) || !AnyVelero(es)
    || forall i :: 0 <= i < |es| && Carries(es[i], infraName) ==> HasBoth(es[i], infraName)
  }

  /** The accumulated flags find what a per-bucket match would, in every iteration order, if and only if no
      bucket carries just one of the tags while the other one is in use. */
  lemma MatchIsPerBucket(es: seq<Entry>, infraName: string)
    requires IsMap(es)
    ensures (forall p :: multiset(p) == multiset(es) ==> FindsOne(p, infraName, Match(p, infraName)))
            <==> NoStray(es, infraName)
  {
    if NoStray(es, infraName) {
      forall p | multiset(p) == multiset(es) ensures FindsOne(p, infraName, Match(p, infraName)) {
        NoStrayFindsOne(es, p, infraName);
      }
    } else {
      var i :| 0 <= i < |es| && Carries(es[i], infraName) && !HasBoth(es[i], infraName);
      var p := VisitLast(es, infraName, i);
      StrayIsFound(es, p, infraName, i);
    }
  }

  /** It does go wrong: two buckets with one tag each, and one of them is taken for this cluster's. */
  lemma StrayTagsMislead(a: string, b: string, infraName: string)
    requires a != "" && b != "" && a != b
    ensures var es := [Entry(a, [Tag(TAG_INFRA_NAME, infraName)]),
                       Entry(b, [Tag(TAG_BACKUP_LOCATION, DEFAULT_BACKUP_LOCATION)])];
            && IsMap(es) && Match(es, infraName) == b
            && forall i :: 0 <= i < |es| ==> !HasBoth(es[i], infraName)
  {
    assert |TAG_INFRA_NAME| != |TAG_BACKUP_LOCATION|;
    var first := Entry(a, [Tag(TAG_INFRA_NAME, infraName)]);
    var second := Entry(b, [Tag(TAG_BACKUP_LOCATION, DEFAULT_BACKUP_LOCATION)]);
    assert [first, second] == [first] + [second];
    assert first.tags[0].key == TAG_INFRA_NAME && second.tags[0].key == TAG_BACKUP_LOCATION;
    assert [first][0] == first;
    SplitEntries([first], second, infraName);
  }

  lemma NoStrayFindsOne(es: seq<Entry>, p: seq<Entry>, infraName: string)
    requires IsMap(es) && multiset(p) == multiset(es) && NoStray(es, infraName)
    ensures FindsOne(p, infraName, Match(p, infraName))
  {
    PermutedFlags(p, es, infraName);
    if AnyCluster(p, infraName) && AnyVelero(p) {
      var a :| 0 <= a < |p| && HasClusterTag(p[a].tags, infraName);
      assert Carries(p[a], infraName);
      var k := LastCarrierIsLast(p, infraName);
      var i := PermutedIndex(p, es, k);
      assert HasBoth(p[k], infraName) && p[k].bucket != "";
    }
  }

  lemma StrayIsFound(es: seq<Entry>, p: seq<Entry>, infraName: string, i: nat)
    requires IsMap(es) && multiset(p) == multiset(es) && i < |es| && !HasBoth(es[i], infraName)
    requires Match(p, infraName) == es[i].bucket
    ensures !FindsOne(p, infraName, Match(p, infraName))
  {
    forall k | 0 <= k < |p| && p[k].bucket == es[i].bucket ensures !HasBoth(p[k], infraName) {
      var j := PermutedIndex(p, es, k);
      assert j == i;
    }
  }

  /** The result is the one bucket carrying both tags, or nothing if none does. */
  ghost predicate FindsTheOne(es: seq<Entry>, infraName: string, m: string) {
    && (forall i :: 0 <= i < |es| ==> (es[i].bucket == m <==> HasBoth(es[i], infraName)))
    && (m == "" <==> forall i :: 0 <= i < |es| ==> !HasBoth(es[i], infraName))
  }

  /** In every iteration order it is the only bucket of this cluster if and only if the match is unambiguous. */
  lemma MatchIsTheOneBucket(es: seq<Entry>, infraName: string)
    requires IsMap(es)
    ensures (forall p :: multiset(p) == multiset(es) ==> FindsTheOne(es, infraName, Match(p, infraName)))
            <==> Unambiguous(es, infraName)
  {
    if Unambiguous(es, infraName) {
      MatchOrderIndependent(es, infraName);
      UnambiguousFindsTheOne(es, infraName);
    } else {
      var k := LastCarrierIsLast(es, infraName);
      assert !OnlyCarrier(es, infraName, k);
      var j :| 0 <= j < |es| && (Carries(es[j], infraName) <==> j != k);
      var p := VisitLast(es, infraName, j);
      var q := VisitLast(es, infraName, k);
      assert !(FindsTheOne(es, infraName, Match(p, infraName)) && FindsTheOne(es, infraName, Match(q, infraName)));
    }
  }

  lemma UnambiguousFindsTheOne(es: seq<Entry>, infraName: string)
    requires IsMap(es) && Unambiguous(es, infraName)
    ensures FindsTheOne(es, infraName, Match(es, infraName))
  {
    MatchFindsLastCarrier(es, infraName);
    if AnyCluster(es, infraName) && AnyVelero(es) {
      var a :| 0 <= a < |es| && HasClusterTag(es[a].tags, infraName);
      var b :| 0 <= b < |es| && HasVeleroTag(es[b].tags);
      assert Carries(es[a], infraName) && Carries(es[b], infraName);
      var k: nat :| OnlyCarrier(es, infraName, k);
      assert a == k && b == k;
    }
  }
}
