/** Bucket labels and discovery on GCS (pkg/storage/gcs/bucket.go). Strings are ASCII here. */
module GcsBucket {
  import opened Options
  import opened Cloud

  const TAG_PREFIX := "velero.io/"
  const TAG_BACKUP_LOCATION := TAG_PREFIX + "backup-location"
  const TAG_INFRA_NAME := TAG_PREFIX + "infrastructureName"
  const DEFAULT_BACKUP_LOCATION := "default"

  // ---- Label sanitising ----

  function LowerChar(c: char): char {
    if 'A' <= c <= 'Z' then c + 32 as char else c
  }

  function UpperChar(c: char): char {
    if 'a' <= c <= 'z' then c - 32 as char else c
  }

  function Lower(s: string): string { seq(|s|, i requires 0 <= i < |s| => LowerChar(s[i])) }

  function Upper(s: string): string { seq(|s|, i requires 0 <= i < |s| => UpperChar(s[i])) }

  const CAPITALS := seq(26, i requires 0 <= i < 26 => ('A' as int + i) as char)
  const SMALL := seq(26, i requires 0 <= i < 26 => ('a' as int + i) as char)
  const DIGITS := seq(10, i requires 0 <= i < 10 => ('0' as int + i) as char)

  /** The two maps exchange the letters of the alphabets, each at its own place, and nothing else; small
      letters, digits, dashes and underscores are what a label may contain. */
  lemma LettersMap(c: char)
    ensures forall i :: 0 <= i < 26 ==> LowerChar(CAPITALS[i]) == SMALL[i] && UpperChar(SMALL[i]) == CAPITALS[i]
    ensures c !in CAPITALS ==> LowerChar(c) == c
    ensures c !in SMALL ==> UpperChar(c) == c
    ensures Allowed(c) <==> c in SMALL || c in DIGITS || c == '-' || c == '_'
  {
    if 'A' <= c <= 'Z' {
      assert CAPITALS[c as int - 'A' as int] == c;
    }
    if 'a' <= c <= 'z' {
      assert SMALL[c as int - 'a' as int] == c;
    }
    if '0' <= c <= '9' {
      assert DIGITS[c as int - '0' as int] == c;
    }
  }

  predicate Allowed(c: char) {
    'a' <= c <= 'z' || '0' <= c <= '9' || c == '-' || c == '_'
  }

  /** Drops the leading run of disallowed characters. */
  function SkipRun(s: string): (r: string)
    ensures |r| <= |s|
    ensures r == "" || Allowed(r[0])
  {
    if s == "" || Allowed(s[0]) then s else SkipRun(s[1..])
  }

  /** Replaces every maximal run of disallowed characters by one dash. */
  function ReplaceRuns(s: string): string
    decreases |s|
  {
    if s == "" then ""
    else if Allowed(s[0]) then [s[0]] + ReplaceRuns(s[1..])
    else "-" + ReplaceRuns(SkipRun(s[1..]))
  }

  function Sanitize(s: string): string { ReplaceRuns(Lower(s)) }

  /** One pass, remembering only whether the previous character was already replaced. */
  function Scan(s: string, inRun: bool): string {
    if s == "" then ""
    else
      var c := LowerChar(s[0]);
      Emit(c, inRun) + Scan(s[1..], !Allowed(c))
  }

  function Emit(c: char, inRun: bool): string { if Allowed(c) then [c] else if inRun then "" else "-" }

  lemma {:induction false} ScanReplaces(s: string)
    ensures ReplaceRuns(Lower(s)) == Scan(s, false)
    ensures ReplaceRuns(SkipRun(Lower(s))) == Scan(s, true)
  {
    if s != "" {
      ScanReplaces(s[1..]);
      assert Lower(s)[1..] == Lower(s[1..]);
    }
  }

  lemma SanitizeIsScan(s: string)
    ensures Sanitize(s) == Scan(s, false)
  {
    ScanReplaces(s);
  }

  lemma {:induction false} ScanShape(s: string, inRun: bool)
    ensures |Scan(s, inRun)| <= |s|
    ensures forall i :: 0 <= i < |Scan(s, inRun)| ==> Allowed(Scan(s, inRun)[i])
  {
    if s != "" {
      ScanShape(s[1..], false);
      ScanShape(s[1..], true);
    }
  }

  lemma {:induction false} ScanFixesAllowed(s: string, inRun: bool)
    requires forall i :: 0 <= i < |s| ==> Allowed(s[i])
    ensures Scan(s, inRun) == s
  {
    if s != "" {
      ScanFixesAllowed(s[1..], false);
    }
  }

  /** Only allowed characters come out, nothing grows, and a second pass changes nothing. */
  lemma SanitizeShape(s: string)
    ensures forall i :: 0 <= i < |Sanitize(s)| ==> Allowed(Sanitize(s)[i])
    ensures |Sanitize(s)| <= |s|
    ensures Sanitize(Sanitize(s)) == Sanitize(s)
  {
    SanitizeIsScan(s);
    ScanShape(s, false);
    SanitizeIsScan(Sanitize(s));
    ScanFixesAllowed(Sanitize(s), false);
  }

  predicate EndsInRun(s: string) { s != "" && !Allowed(LowerChar(s[|s| - 1])) }

  predicate StartsInRun(s: string) { s != "" && !Allowed(LowerChar(s[0])) }

  lemma ScanFirst(s: string, inRun: bool)
    requires s != ""
    ensures Scan(s, inRun) == Emit(LowerChar(s[0]), inRun) + Scan(s[1..], !Allowed(LowerChar(s[0])))
  {
  }

  lemma Regroup(a: string, b: string, head: string, x: string, y: string)
    requires a != ""
    ensures (a + b)[0] == a[0] && (a + b)[1..] == a[1..] + b
    ensures head + (x + y) == head + x + y
  {
  }

  lemma {:induction false} ScanConcat(a: string, b: string, inRun: bool)
    ensures Scan(a + b, inRun) == Scan(a, inRun) + Scan(b, if a == "" then inRun else EndsInRun(a))
  {
    if a == "" {
      assert a + b == b;
    } else {
      hide *;
      var run := !Allowed(LowerChar(a[0]));
      ScanFirst(a, inRun);
      ScanFirst(a + b, inRun);
      EndOfRest(a);
      Regroup(a, b, Emit(LowerChar(a[0]), inRun), Scan(a[1..], run), Scan(b, EndsInRun(a)));
      ScanConcat(a[1..], b, run);
    }
  }

  lemma EndOfRest(a: string)
    requires a != ""
    ensures EndsInRun(a) == if a[1..] == "" then !Allowed(LowerChar(a[0])) else EndsInRun(a[1..])
  {
  }

  /** Sanitising distributes over concatenation unless a run spans the join, and then it never does. */
  lemma SanitizeConcat(a: string, b: string)
    ensures Sanitize(a + b) == Sanitize(a) + Sanitize(b) <==> !(EndsInRun(a) && StartsInRun(b))
  {
    SanitizeIsScan(a);
    SanitizeIsScan(b);
    SanitizeIsScan(a + b);
    ScanConcat(a, b, false);
    if EndsInRun(a) && StartsInRun(b) {
      assert |Scan(b, false)| == |Scan(b, true)| + 1;
    }
  }

  /** Away from runs, sanitising acts character by character. */
  lemma {:induction false} ScanPointwise(s: string)
    requires forall i :: 0 <= i < |s| - 1 ==> Allowed(LowerChar(s[i])) || Allowed(LowerChar(s[i + 1]))
    ensures |Scan(s, false)| == |s|
    ensures forall i :: 0 <= i < |s| ==>
              Scan(s, false)[i] == if Allowed(LowerChar(s[i])) then LowerChar(s[i]) else '-'
  {
    if s != "" {
      ScanPointwise(s[1..]);
      if !Allowed(LowerChar(s[0])) && |s| > 1 {
        assert Allowed(LowerChar(s[1]));
        assert Scan(s[1..], true) == Scan(s[1..], false);
      }
    }
  }

  // ---- Labels ----

  const LOCATION_LABEL := Sanitize(TAG_BACKUP_LOCATION)
  const INFRA_LABEL := Sanitize(TAG_INFRA_NAME)

  /** No two adjacent characters are disallowed. */
  ghost predicate Spaced(s: string) {
    forall i :: 0 <= i < |s| - 1 ==> Allowed(LowerChar(s[i])) || Allowed(LowerChar(s[i + 1]))
  }

  lemma SpacedKeepsLength(s: string)
    requires Spaced(s)
    ensures |Sanitize(s)| == |s|
  {
    SanitizeIsScan(s);
    ScanPointwise(s);
  }

  /** What the two label keys and the default location come to. */
  lemma LabelNames()
    ensures LOCATION_LABEL == "velero-io-" + "backup-location"
    ensures INFRA_LABEL == "velero-io-" + "infrastructurename"
    ensures Sanitize(DEFAULT_BACKUP_LOCATION) == "default"
  {
    LabelParts();
    SanitizeConcat("velero.io/", "backup-location");
    SanitizeConcat("velero.io/", "infrastructureName");
  }

  lemma LabelParts()
    ensures Sanitize("velero.io/") == "velero-io-" && Sanitize("default") == "default"
    ensures Sanitize("backup-location") == "backup-location"
    ensures Sanitize("infrastructureName") == "infrastructurename"
  {
    hide *;
    PrefixPart();
    DefaultPart();
    LocationPart();
    NamePart();
  }

  lemma PrefixPart()
    ensures Sanitize("velero.io/") == "velero-io-"
  {
    hide Sanitize;
    SanitizesTo("velero.io/", "velero-io-");
  }

  lemma DefaultPart()
    ensures Sanitize("default") == "default"
  {
    hide Sanitize;
    SanitizesTo("default", "default");
  }

  lemma LocationPart()
    ensures Sanitize("backup-location") == "backup-location"
  {
    hide Sanitize;
    SanitizesTo("backup-location", "backup-location");
  }

  lemma NamePart()
    ensures Sanitize("infrastructureName") == "infrastructurename"
  {
    hide Sanitize;
    SanitizesTo("infrastructureName", "infrastructurename");
  }

  lemma SanitizesTo(s: string, r: string)
    requires Spaced(s) && |r| == |s|
    requires forall i :: 0 <= i < |s| ==> r[i] == if Allowed(LowerChar(s[i])) then LowerChar(s[i]) else '-'
    ensures Sanitize(s) == r
  {
    SanitizeIsScan(s);
    ScanPointwise(s);
  }

  lemma LabelsDiffer()
    ensures LOCATION_LABEL != INFRA_LABEL
  {
    SpacedKeepsLength(TAG_BACKUP_LOCATION);
    SpacedKeepsLength(TAG_INFRA_NAME);
  }

  function OurLabels(infraName: string): map<string, string> {
    map[LOCATION_LABEL := Sanitize(DEFAULT_BACKUP_LOCATION), INFRA_LABEL := Sanitize(infraName)]
  }

  function NewBucket(region: string, infraName: string): Bucket {
    Bucket(Self, Some(Upper(region)), NO_SETTINGS.(labels := OurLabels(infraName)))
  }

  predicate LabelsMatch(labels: map<string, string>, infraName: string) {
    && INFRA_LABEL in labels && labels[INFRA_LABEL] == Sanitize(infraName)
    && LOCATION_LABEL in labels && labels[LOCATION_LABEL] == Sanitize(DEFAULT_BACKUP_LOCATION)
  }

  /** The labels say: a default backup location of this cluster. */
  ghost predicate CarriesLabels(labels: map<string, string>, infraName: string) {
    var location, infra := "velero-io-" + "backup-location", "velero-io-" + "infrastructurename";
    && location in labels && labels[location] == "default"
    && infra in labels && labels[infra] == Sanitize(infraName)
  }

  lemma MatchMeans(labels: map<string, string>, infraName: string)
    ensures LabelsMatch(labels, infraName) <==> CarriesLabels(labels, infraName)
  {
    hide Sanitize;
    LabelNames();
  }

  /** Whatever labels a bucket had, merging ours makes it carry them, and those of another cluster exactly when
      the two infrastructure names sanitise alike; no other label and no other setting changes. */
  lemma MergedLabelsMatch(s: Settings, infraName: string, other: string)
    ensures var s' := Applied(s, MergeLabels(OurLabels(infraName)));
            && (CarriesLabels(s'.labels, other) <==> Sanitize(infraName) == Sanitize(other))
            && s' == s.(labels := s'.labels) && s.labels.Keys <= s'.labels.Keys
            && forall k :: k in s'.labels
                 && k !in ["velero-io-" + "backup-location", "velero-io-" + "infrastructurename"]
                 ==> k in s.labels && s'.labels[k] == s.labels[k]
  {
    LabelsDiffer();
    LabelNames();
    hide Sanitize;
    MatchMeans(Applied(s, MergeLabels(OurLabels(infraName))).labels, other);
  }

  // ---- Discovery ----

  datatype Attrs = Attrs(name: string, labels: map<string, string>)

  datatype Iterated = Item(bucket: Attrs) | Gap | Done | Broken

  /** One step of the listing iterator, which may break at any step. The service works through candidate
      names in some order; one that is not (or no longer) a bucket of the project yields nothing. */
  function NextItem(w: World, candidate: Option<string>): (r: (World, Iterated))
    ensures Reads(w, r.0)
    ensures r.1.Done? ==> candidate.None?
    ensures r.1.Item? ==> candidate == Some(r.1.bucket.name) && r.0.Mine(r.1.bucket.name)
                          && r.1.bucket.labels == r.0.cloud[r.1.bucket.name].settings.labels
    ensures Calm(w) ==> r.1 == match candidate
                               case None => Done
                               case Some(n) => if w.Mine(n) then Item(Attrs(n, w.cloud[n].settings.labels)) else Gap
  {
    var w1 := w.Next();
    if w.Turn().fate.Refused? || w.Turn().fate.Lost? then (w1, Broken)
    else match candidate
      case None => (w1, Done)
      case Some(n) =>
        (w1, if w.Turn().fate.Hidden? || !w1.Mine(n) then Gap else Item(Attrs(n, w1.cloud[n].settings.labels)))
  }

  /** The rest of a listing, collected bucket by bucket on top of `got`. */
  function Pages(w: World, names: seq<string>, got: seq<Attrs>): (r: (World, Option<seq<Attrs>>))
    ensures Reads(w, r.0)
    ensures r.1.Some? && NoDeletion(w) ==> forall b :: b in r.1.value ==> b in got || r.0.Mine(b.name)
    ensures Calm(w) ==> r.1.Some?
    decreases |names|
  {
    if names == [] then
      var (w1, a) := NextItem(w, None);
      (w1, if a.Done? then Some(got) else None)
    else
      var (w1, a) := NextItem(w, Some(names[0]));
      match a
      case Gap => Pages(w1, names[1..], got)
      case Item(b) => Pages(w1, names[1..], got + [b])
      case _ => (w1, None)
  }

  function NamesOf(buckets: seq<Attrs>): seq<string> {
    seq(|buckets|, i requires 0 <= i < |buckets| => buckets[i].name)
  }

  /** Buckets: the project's buckets with their labels. */
  function ListBuckets(w: World): (r: (World, Option<seq<Attrs>>))
    ensures Browses(w, r.0)
    ensures r.1.Some? ==> r.0.log == w.log + [Listed(NamesOf(r.1.value))]
    ensures r.1.Some? && NoDeletion(w) ==> forall b :: b in r.1.value ==> r.0.Mine(b.name)
    ensures Calm(w) ==> r.1.Some?
  {
    var (w1, listed) := Pages(w, w.Turn().order, []);
    match listed
    case None => (w1, None)
    case Some(buckets) => (w1.Noted(Listed(NamesOf(buckets))), listed)
  }

  /** Collects the listing until the iterator is done or breaks. */
  method ListAll(env: Env) returns (r: Option<seq<Attrs>>)
    modifies env
    ensures (env.w, r) == ListBuckets(old(env.w))
  {
    var candidates, results: seq<Attrs> := env.w.Turn().order, [];
    for i := 0 to |candidates|
      invariant Pages(old(env.w), candidates, []) == Pages(env.w, candidates[i..], results)
    {
      var step := NextItem(env.w, Some(candidates[i]));
      env.w := step.0;
      match step.1 {
        case Gap =>
        case Item(b) => results := results + [b];
        case _ => return None;
      }
    }
    var last := NextItem(env.w, None);
    env.w := last.0;
    if !last.1.Done? {
      return None;
    }
    env.w := env.w.Noted(Listed(NamesOf(results)));
    return Some(results);
  }

  /** The first listed bucket carrying both labels with the right values. */
  function FirstMatch(buckets: seq<Attrs>, infraName: string): string {
    if buckets == [] then ""
    else if LabelsMatch(buckets[0].labels, infraName) then buckets[0].name
    else FirstMatch(buckets[1..], infraName)
  }

  lemma {:induction false} FirstMatchScans(buckets: seq<Attrs>, infraName: string)
    requires forall b :: b in buckets ==> b.name != ""
    ensures FirstMatch(buckets, infraName) == "" <==>
            forall i :: 0 <= i < |buckets| ==> !LabelsMatch(buckets[i].labels, infraName)
    ensures forall i :: 0 <= i < |buckets| && LabelsMatch(buckets[i].labels, infraName)
              && (forall j :: 0 <= j < i ==> !LabelsMatch(buckets[j].labels, infraName))
              ==> FirstMatch(buckets, infraName) == buckets[i].name
    ensures FirstMatch(buckets, infraName) != "" ==>
              exists i :: 0 <= i < |buckets| && buckets[i].name == FirstMatch(buckets, infraName)
  {
    hide LabelsMatch;
    if buckets != [] {
      assert buckets[0] in buckets && forall b :: b in buckets[1..] ==> b in buckets;
      FirstMatchScans(buckets[1..], infraName);
      assert forall i :: 0 < i < |buckets| ==> buckets[i] == buckets[1..][i - 1];
      forall i | 0 <= i < |buckets| && LabelsMatch(buckets[i].labels, infraName)
          && (forall j :: 0 <= j < i ==> !LabelsMatch(buckets[j].labels, infraName))
        ensures FirstMatch(buckets, infraName) == buckets[i].name
      {
        if i > 0 {
          assert forall j :: 0 <= j < i - 1 ==> buckets[1..][j] == buckets[j + 1];
        }
      }
    }
  }

  /** The result is the first bucket in listing order that carries both labels with the right values, and
      empty exactly when none does. */
  lemma FirstMatchIsFirst(buckets: seq<Attrs>, infraName: string)
    requires forall b :: b in buckets ==> b.name != ""
    ensures FirstMatch(buckets, infraName) == "" <==>
            forall i :: 0 <= i < |buckets| ==> !CarriesLabels(buckets[i].labels, infraName)
    ensures forall i :: 0 <= i < |buckets| && CarriesLabels(buckets[i].labels, infraName)
              && (forall j :: 0 <= j < i ==> !CarriesLabels(buckets[j].labels, infraName))
              ==> FirstMatch(buckets, infraName) == buckets[i].name
  {
    hide LabelsMatch, CarriesLabels;
    forall i | 0 <= i < |buckets|
      ensures LabelsMatch(buckets[i].labels, infraName) <==> CarriesLabels(buckets[i].labels, infraName)
    {
      MatchMeans(buckets[i].labels, infraName);
    }
    FirstMatchScans(buckets, infraName);
  }

  lemma {:induction false} FirstMatchIsListed(buckets: seq<Attrs>, infraName: string) returns (i: nat)
    requires FirstMatch(buckets, infraName) != ""
    ensures i < |buckets| && buckets[i].name == FirstMatch(buckets, infraName)
    ensures CarriesLabels(buckets[i].labels, infraName)
  {
    MatchMeans(buckets[0].labels, infraName);
    hide CarriesLabels, LabelsMatch;
    if LabelsMatch(buckets[0].labels, infraName) {
      i := 0;
    } else {
      var j := FirstMatchIsListed(buckets[1..], infraName);
      i := j + 1;
    }
  }

  /** Two flags per bucket, set while ranging over its label map in no particular order. */
  method FindVeleroBucket(buckets: seq<Attrs>, infraName: string) returns (m: string)
    ensures m == FirstMatch(buckets, infraName)
    ensures m != "" ==> exists b :: b in buckets && b.name == m && CarriesLabels(b.labels, infraName)
  {
    hide CarriesLabels;
    LabelsDiffer();
    if FirstMatch(buckets, infraName) != "" {
      ghost var k := FirstMatchIsListed(buckets, infraName);
      assert buckets[k] in buckets;
    }
    for i := 0 to |buckets|
      invariant FirstMatch(buckets, infraName) == FirstMatch(buckets[i..], infraName)
    {
      var labels := buckets[i].labels;
      var tagMatchesCluster, tagMatchesVelero := false, false;
      var rest := labels.Keys;
      while rest != {}
        invariant rest <= labels.Keys
        invariant tagMatchesCluster <==>
                  INFRA_LABEL in labels.Keys - rest && labels[INFRA_LABEL] == Sanitize(infraName)
        invariant tagMatchesVelero <==>
                  LOCATION_LABEL in labels.Keys - rest
                  && labels[LOCATION_LABEL] == Sanitize(DEFAULT_BACKUP_LOCATION)
        decreases |rest|
      {
        var k :| k in rest;
        if k == INFRA_LABEL && labels[k] == Sanitize(infraName) {
          tagMatchesCluster := true;
        }
        if k == LOCATION_LABEL && labels[k] == Sanitize(DEFAULT_BACKUP_LOCATION) {
          tagMatchesVelero := true;
        }
        rest := rest - {k};
      }
      if tagMatchesCluster && tagMatchesVelero {
        return buckets[i].name;
      }
    }
    return "";
  }
}
