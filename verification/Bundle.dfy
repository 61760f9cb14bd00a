/** Operator bundle generation
    (boilerplate/openshift/golang-osd-operator/csv-generate/common-generate-operator-bundle.py). */
module Bundle {
  import opened Options

  datatype Subject = Subject(kind: string, name: string, namespace: Option<string>)

  /** A document of the deploy directory; `roleRef` and `subjects` matter for bindings only. */
  datatype Doc = Doc(
    kind: Kind,
    name: string,
    namespace: Option<string>,
    roleRef: string,
    subjects: Option<seq<Subject>>,
    body: string)

  datatype Permission = Permission(role: Doc, serviceAccount: string)

  type Index = map<Kind, seq<Doc>>

  /** Kinds with a treatment of their own; all others are bundled as they are. */
  datatype Kind =
    | ClusterRole
    | ClusterRoleBinding
    | Role
    | RoleBinding
    | Deployment
    | ServiceAccount
    | Generic(name: string)

  const GENERIC_KINDS: set<string> := {
    "ClusterServiceVersion", "CustomResourceDefinition", "Secret", "ConfigMap", "Service", "PrometheusRule",
    "ServiceMonitor", "PodDisruptionBudget", "PriorityClass", "VerticalPodAutoscaler", "ConsoleYamlSample" }

  /** Kinds the registry accepts. */
  predicate Permitted(kind: Kind) { kind.Generic? ==> kind.name in GENERIC_KINDS }

  function Group(index: Index, kind: Kind): seq<Doc> { if kind in index then index[kind] else [] }

  // ---- Trimming ----

  predicate SameMeta(a: Doc, b: Doc) { a.name == b.name && a.namespace == b.namespace }

  /** Without the first document of that name and namespace. */
  function Without(docs: seq<Doc>, item: Doc): (r: seq<Doc>)
    ensures |r| <= |docs|
  {
    if docs == [] then []
    else if SameMeta(docs[0], item) then docs[1..]
    else [docs[0]] + Without(docs[1..], item)
  }

  function Trimmed(index: Index, kind: Kind, item: Doc): Index {
    if kind in index then index[kind := Without(index[kind], item)] else index
  }

  function WithoutEach(docs: seq<Doc>, items: seq<Doc>): seq<Doc>
    decreases |items|
  {
    if items == [] then docs else WithoutEach(Without(docs, items[0]), items[1..])
  }

  lemma {:induction false} WithoutSplit(docs: seq<Doc>, item: Doc, found: nat)
    requires found < |docs| && SameMeta(docs[found], item)
    requires forall j :: 0 <= j < found ==> !SameMeta(docs[j], item)
    ensures Without(docs, item) == docs[..found] + docs[found + 1..]
  {
    if found > 0 {
      WithoutSplit(docs[1..], item, found - 1);
      assert docs[..found] == [docs[0]] + docs[1..][..found - 1];
    } else {
      assert docs[..0] + docs[1..] == docs[1..];
    }
  }

  lemma {:induction false} WithoutAbsent(docs: seq<Doc>, item: Doc)
    requires forall j :: 0 <= j < |docs| ==> !SameMeta(docs[j], item)
    ensures Without(docs, item) == docs
  {
    if docs != [] {
      WithoutAbsent(docs[1..], item);
    }
  }

  /** Trimming removes the first document of just that name and namespace, and nothing if there is none. */
  lemma TrimIsExact(docs: seq<Doc>, item: Doc)
    ensures (forall d :: d in docs ==> d.name != item.name || d.namespace != item.namespace)
            ==> Without(docs, item) == docs
    ensures forall k :: 0 <= k < |docs| && docs[k].name == item.name && docs[k].namespace == item.namespace
              && (forall j :: 0 <= j < k ==> docs[j].name != item.name || docs[j].namespace != item.namespace)
              ==> Without(docs, item) == docs[..k] + docs[k + 1..]
  {
    if forall d :: d in docs ==> d.name != item.name || d.namespace != item.namespace {
      WithoutAbsent(docs, item);
    }
    forall k | 0 <= k < |docs| && docs[k].name == item.name && docs[k].namespace == item.namespace
        && (forall j :: 0 <= j < k ==> docs[j].name != item.name || docs[j].namespace != item.namespace)
      ensures Without(docs, item) == docs[..k] + docs[k + 1..]
    {
      WithoutSplit(docs, item, k);
    }
  }

  /** Trimming loses at most one document, of the item's name and namespace. */
  lemma {:induction false} WithoutConserves(docs: seq<Doc>, item: Doc) returns (gone: seq<Doc>)
    ensures multiset(docs) == multiset(Without(docs, item)) + multiset(gone)
    ensures |gone| <= 1 && forall d :: d in gone ==> SameMeta(d, item) && d in docs
  {
    gone := [];
    if docs != [] {
      assert docs == [docs[0]] + docs[1..];
      if SameMeta(docs[0], item) {
        gone := [docs[0]];
      } else {
        gone := WithoutConserves(docs[1..], item);
      }
    }
  }

  // ---- Filters ----

  function Of(docs: seq<Doc>, kind: Kind): seq<Doc> {
    if docs == [] then []
    else
      var rest := Of(docs[..|docs| - 1], kind);
      if docs[|docs| - 1].kind == kind then rest + [docs[|docs| - 1]] else rest
  }

  /** The bindings of one kind by role name: a later one overwrites an earlier one. */
  function BindingMap(docs: seq<Doc>, kind: Kind): map<string, Doc> {
    if docs == [] then map[]
    else
      var d := docs[|docs| - 1];
      var m := BindingMap(docs[..|docs| - 1], kind);
      if d.kind == kind then m[d.roleRef := d] else m
  }

  lemma LoadStep(docs: seq<Doc>, i: nat)
    requires i < |docs|
    ensures forall k :: Of(docs[..i + 1], k) == Of(docs[..i], k) + if docs[i].kind == k then [docs[i]] else []
    ensures forall k :: BindingMap(docs[..i + 1], k) ==
                        if docs[i].kind == k then BindingMap(docs[..i], k)[docs[i].roleRef := docs[i]]
                        else BindingMap(docs[..i], k)
  {
    assert docs[..i + 1][..i] == docs[..i] && docs[..i + 1][i] == docs[i];
  }

  /** Grouping by kind loses, repeats and mixes up nothing. */
  lemma {:induction false} OfIsExact(docs: seq<Doc>, kind: Kind, d: Doc)
    ensures multiset(Of(docs, kind))[d] == if d.kind == kind then multiset(docs)[d] else 0
  {
    if docs != [] {
      var n := |docs| - 1;
      OfIsExact(docs[..n], kind, d);
      assert docs == docs[..n] + [docs[n]];
    }
  }

  /** And keeps the order of loading. */
  lemma {:induction false} OfInOrder(a: seq<Doc>, b: seq<Doc>, kind: Kind)
    ensures Of(a + b, kind) == Of(a, kind) + Of(b, kind)
  {
    if b == [] {
      assert a + b == a;
    } else {
      var n := |b| - 1;
      assert (a + b)[..|a + b| - 1] == a + b[..n];
      OfInOrder(a, b[..n], kind);
    }
  }

  /** The binding at `i` is the last one of that role name. */
  ghost predicate LastBinds(docs: seq<Doc>, kind: Kind, role: string, i: nat) {
    i < |docs| && Binds(docs[i], kind, role) && forall j :: i < j < |docs| ==> !Binds(docs[j], kind, role)
  }

  /** A binding is found by role name exactly when there is one, and the last one loaded is found. */
  lemma {:induction false} BindingMapIsLast(docs: seq<Doc>, kind: Kind, role: string)
    ensures role in BindingMap(docs, kind) <==> exists i :: 0 <= i < |docs| && Binds(docs[i], kind, role)
    ensures role in BindingMap(docs, kind) ==>
              exists i: nat :: LastBinds(docs, kind, role, i) && BindingMap(docs, kind)[role] == docs[i]
  {
    if docs != [] {
      var n := |docs| - 1;
      var before := docs[..n];
      BindingMapIsLast(before, kind, role);
      BindingMapStep(docs, kind, role);
      hide BindingMap, Binds;
      assert forall i :: 0 <= i < n ==> before[i] == docs[i];
      if Binds(docs[n], kind, role) {
        assert LastBinds(docs, kind, role, n);
      } else if role in BindingMap(before, kind) {
        var i: nat :| LastBinds(before, kind, role, i) && BindingMap(before, kind)[role] == before[i];
        assert LastBinds(docs, kind, role, i) && docs[i] == before[i];
      }
    }
  }

  lemma BindingMapStep(docs: seq<Doc>, kind: Kind, role: string)
    requires docs != []
    ensures var n := |docs| - 1;
            var before, after := BindingMap(docs[..n], kind), BindingMap(docs, kind);
            if Binds(docs[n], kind, role) then role in after && after[role] == docs[n]
            else (role in after <==> role in before) && (role in after ==> after[role] == before[role])
  {
  }

  predicate Binds(d: Doc, kind: Kind, role: string) { d.kind == kind && d.roleRef == role }

  // ---- Roles ----

  /** A Role moves into the CSV when its binding has exactly one subject, a ServiceAccount of the
      operator's namespace. */
  predicate Moves(binding: Doc, namespace: string) {
    binding.subjects.Some? && |binding.subjects.value| == 1 &&
    var s := binding.subjects.value[0];
    s.kind == "ServiceAccount" && (s.namespace.None? || s.namespace.value == namespace)
  }

  predicate Bound(role: Doc, rbs: map<string, Doc>) { role.name in rbs && rbs[role.name].subjects.Some? }

  predicate Moved(role: Doc, rbs: map<string, Doc>, namespace: string) {
    role.name in rbs && Moves(rbs[role.name], namespace)
  }

  function Stay(roles: seq<Doc>, rbs: map<string, Doc>, namespace: string): seq<Doc> {
    if roles == [] then []
    else
      var n := |roles| - 1;
      Stay(roles[..n], rbs, namespace) + if Moved(roles[n], rbs, namespace) then [] else [roles[n]]
  }

  function Permissions(roles: seq<Doc>, rbs: map<string, Doc>, namespace: string): seq<Permission> {
    if roles == [] then []
    else
      var n := |roles| - 1;
      Permissions(roles[..n], rbs, namespace) +
      if Moved(roles[n], rbs, namespace) then
        [Permission(roles[n], rbs[roles[n].name].subjects.value[0].name)]
      else []
  }

  /** The bindings consumed along with the moved roles. */
  function Consumed(roles: seq<Doc>, rbs: map<string, Doc>, namespace: string): seq<Doc> {
    if roles == [] then []
    else
      var n := |roles| - 1;
      Consumed(roles[..n], rbs, namespace) + if Moved(roles[n], rbs, namespace) then [rbs[roles[n].name]] else []
  }

  /** Moving goes by name, so no role that stays can be trimmed in place of one that moves. */
  lemma {:induction false} StayHasOtherNames(roles: seq<Doc>, rbs: map<string, Doc>, namespace: string, role: Doc)
    requires Moved(role, rbs, namespace)
    ensures forall d :: d in Stay(roles, rbs, namespace) ==> d.name != role.name
  {
    if roles != [] {
      StayHasOtherNames(roles[..|roles| - 1], rbs, namespace, role);
    }
  }

  /** Trimming the role just visited out of the list being built up removes exactly that role. */
  lemma TrimVisited(roles: seq<Doc>, i: nat, rbs: map<string, Doc>, namespace: string)
    requires i < |roles| && Moved(roles[i], rbs, namespace)
    ensures var done := Stay(roles[..i], rbs, namespace);
            Without(done + roles[i..], roles[i]) == done + roles[i + 1..]
  {
    var done := Stay(roles[..i], rbs, namespace);
    var now := done + roles[i..];
    StayHasOtherNames(roles[..i], rbs, namespace, roles[i]);
    forall j | 0 <= j < |done| ensures !SameMeta(now[j], roles[i]) {
      assert now[j] == done[j] && done[j] in done;
    }
    WithoutSplit(now, roles[i], |done|);
    assert now[..|done|] == done && now[|done| + 1..] == roles[i + 1..];
  }

  lemma {:induction false} WithoutEachSnoc(docs: seq<Doc>, items: seq<Doc>, item: Doc)
    ensures WithoutEach(docs, items + [item]) == Without(WithoutEach(docs, items), item)
    decreases |items|
  {
    if items == [] {
      assert items + [item] == [item] && [item][1..] == [];
      assert WithoutEach(docs, [item]) == WithoutEach(Without(docs, item), []);
    } else {
      assert (items + [item])[1..] == items[1..] + [item];
      WithoutEachSnoc(Without(docs, items[0]), items[1..], item);
    }
  }

  /** Visiting one more role: what it adds to the CSV and what is to be trimmed. */
  lemma VisitStep(roles: seq<Doc>, i: nat, rbs: map<string, Doc>, namespace: string, bindings: seq<Doc>)
    requires i < |roles|
    ensures var before, after, role := roles[..i], roles[..i + 1], roles[i];
            var now := Stay(before, rbs, namespace) + roles[i..];
            var next := Stay(after, rbs, namespace) + roles[i + 1..];
            var trimmed := WithoutEach(bindings, Consumed(before, rbs, namespace));
            if Moved(role, rbs, namespace) then
              && Permissions(after, rbs, namespace) == Permissions(before, rbs, namespace)
                   + [Permission(role, rbs[role.name].subjects.value[0].name)]
              && next == Without(now, role)
              && WithoutEach(bindings, Consumed(after, rbs, namespace)) == Without(trimmed, rbs[role.name])
            else
              && Permissions(after, rbs, namespace) == Permissions(before, rbs, namespace)
              && next == now && WithoutEach(bindings, Consumed(after, rbs, namespace)) == trimmed
  {
    hide Without, WithoutEach, Moves;
    assert roles[..i + 1][..i] == roles[..i] && roles[..i + 1][i] == roles[i];
    if Moved(roles[i], rbs, namespace) {
      TrimVisited(roles, i, rbs, namespace);
      WithoutEachSnoc(bindings, Consumed(roles[..i], rbs, namespace), rbs[roles[i].name]);
    } else {
      assert Consumed(roles[..i + 1], rbs, namespace) == Consumed(roles[..i], rbs, namespace);
    }
  }

  /** Each role either stays or is moved, whatever its name, and never both. */
  lemma {:induction false} RolesConserved(roles: seq<Doc>, rbs: map<string, Doc>, namespace: string)
    ensures multiset(roles) ==
            multiset(Stay(roles, rbs, namespace)) + multiset(RolesOf(Permissions(roles, rbs, namespace)))
  {
    if roles != [] {
      var n := |roles| - 1;
      RolesConserved(roles[..n], rbs, namespace);
      RoleStep(roles, rbs, namespace);
      hide *;
      LastIsPlaced(roles,
        Stay(roles[..n], rbs, namespace), RolesOf(Permissions(roles[..n], rbs, namespace)),
        Stay(roles, rbs, namespace), RolesOf(Permissions(roles, rbs, namespace)));
    }
  }

  /** One more document, put at the end of either list. */
  lemma LastIsPlaced(all: seq<Doc>, stay: seq<Doc>, moved: seq<Doc>, stay': seq<Doc>, moved': seq<Doc>)
    requires all != [] && multiset(all[..|all| - 1]) == multiset(stay) + multiset(moved)
    requires || (stay' == stay && moved' == moved + [all[|all| - 1]])
             || (stay' == stay + [all[|all| - 1]] && moved' == moved)
    ensures multiset(all) == multiset(stay') + multiset(moved')
  {
    assert all == all[..|all| - 1] + [all[|all| - 1]];
  }

  lemma RoleStep(roles: seq<Doc>, rbs: map<string, Doc>, namespace: string)
    requires roles != []
    ensures var n := |roles| - 1;
            var stay, moved := Stay(roles[..n], rbs, namespace), RolesOf(Permissions(roles[..n], rbs, namespace));
            if Moved(roles[n], rbs, namespace) then
              Stay(roles, rbs, namespace) == stay && RolesOf(Permissions(roles, rbs, namespace)) == moved + [roles[n]]
            else
              Stay(roles, rbs, namespace) == stay + [roles[n]] && RolesOf(Permissions(roles, rbs, namespace)) == moved
  {
  }

  /** The subjects are a single ServiceAccount of that name, with no namespace of its own or the operator's. */
  ghost predicate OneAccount(subjects: Option<seq<Subject>>, namespace: string, account: string) {
    || subjects == Some([Subject("ServiceAccount", account, None)])
    || subjects == Some([Subject("ServiceAccount", account, Some(namespace))])
  }

  /** The subjects of a binding keep its Role out of the CSV. */
  ghost predicate KeepsOut(subjects: Option<seq<Subject>>, namespace: string) {
    || subjects.None? || |subjects.value| != 1
    || subjects.value[0].kind != "ServiceAccount"
    || (subjects.value[0].namespace.Some? && subjects.value[0].namespace.value != namespace)
  }

  lemma MovesMeans(binding: Doc, namespace: string)
    ensures Moves(binding, namespace) <==> !KeepsOut(binding.subjects, namespace)
    ensures Moves(binding, namespace) <==>
            binding.subjects.Some? && |binding.subjects.value| == 1
            && OneAccount(binding.subjects, namespace, binding.subjects.value[0].name)
  {
    if binding.subjects.Some? && |binding.subjects.value| == 1 {
      var s := binding.subjects.value[0];
      assert binding.subjects.value == [s];
      if Moves(binding, namespace) {
        assert s == Subject("ServiceAccount", s.name, if s.namespace.None? then None else Some(namespace));
        assert binding.subjects == Some([s]);
      }
    }
  }

  /** The Roles left behind are exactly those without a binding, or with one whose subjects keep them out. */
  lemma {:induction false} StayersDoNotMove(roles: seq<Doc>, rbs: map<string, Doc>, namespace: string)
    ensures forall d :: d in Stay(roles, rbs, namespace) <==>
              d in roles && (d.name in rbs ==> KeepsOut(rbs[d.name].subjects, namespace))
  {
    hide Moves, KeepsOut;
    if roles != [] {
      var n := |roles| - 1;
      assert roles == roles[..n] + [roles[n]];
      StayersDoNotMove(roles[..n], rbs, namespace);
      if roles[n].name in rbs {
        MovesMeans(rbs[roles[n].name], namespace);
      }
    }
  }

  /** Everything keeps the order of the roles. */
  lemma {:induction false} RolesInOrder(a: seq<Doc>, b: seq<Doc>, rbs: map<string, Doc>, namespace: string)
    ensures Stay(a + b, rbs, namespace) == Stay(a, rbs, namespace) + Stay(b, rbs, namespace)
    ensures Permissions(a + b, rbs, namespace) == Permissions(a, rbs, namespace) + Permissions(b, rbs, namespace)
  {
    hide Moved;
    if b == [] {
      assert a + b == a;
    } else {
      var n := |b| - 1;
      assert (a + b)[..|a + b| - 1] == a + b[..n];
      RolesInOrder(a, b[..n], rbs, namespace);
    }
  }

  /** `permissions` lists exactly the Roles whose binding is for one such account, with that account. */
  lemma {:induction false} PermissionsAreOfMoved(roles: seq<Doc>, rbs: map<string, Doc>, namespace: string)
    ensures forall p :: p in Permissions(roles, rbs, namespace) <==>
              && p.role in roles && p.role.name in rbs
              && OneAccount(rbs[p.role.name].subjects, namespace, p.serviceAccount)
  {
    if roles != [] {
      var n := |roles| - 1;
      assert roles == roles[..n] + [roles[n]];
      PermissionsAreOfMoved(roles[..n], rbs, namespace);
      if roles[n].name in rbs {
        MovesMeans(rbs[roles[n].name], namespace);
      }
      hide Moves;
    }
  }

  function RolesOf(ps: seq<Permission>): seq<Doc> {
    seq(|ps|, i requires 0 <= i < |ps| => ps[i].role)
  }

  /** Trimming conserves documents up to the ones it removed, each of them of some item's metadata. */
  lemma {:induction false} WithoutEachConserves(docs: seq<Doc>, items: seq<Doc>) returns (gone: seq<Doc>)
    ensures multiset(docs) == multiset(WithoutEach(docs, items)) + multiset(gone)
    ensures |gone| <= |items|
    ensures forall d :: d in gone ==> d in docs && exists i :: 0 <= i < |items| && SameMeta(d, items[i])
    decreases |items|
  {
    gone := [];
    if items != [] {
      var first := WithoutConserves(docs, items[0]);
      var rest := WithoutEachConserves(Without(docs, items[0]), items[1..]);
      gone := first + rest;
      forall d | d in gone
        ensures d in docs && exists i :: 0 <= i < |items| && SameMeta(d, items[i])
      {
        if d in first {
          assert SameMeta(d, items[0]);
        } else {
          assert d in multiset(Without(docs, items[0]));
          assert d in multiset(docs);
          var i :| 0 <= i < |items[1..]| && SameMeta(d, items[1..][i]);
          assert SameMeta(d, items[i + 1]);
        }
      }
    }
  }

  // ---- Cluster roles ----

  /** The first ServiceAccount subject of the binding, the operator's own account without a binding, and
      nothing when the binding has no such subject. */
  function DiscoverServiceAccount(subjects: Option<seq<Subject>>, operatorName: string): Option<string> {
    if subjects.None? then Some(operatorName) else FirstAccount(subjects.value)
  }

  function FirstAccount(subjects: seq<Subject>): Option<string> {
    if subjects == [] then None
    else if subjects[0].kind == "ServiceAccount" then Some(subjects[0].name)
    else FirstAccount(subjects[1..])
  }

  /** The account found is that of the first ServiceAccount subject, and none is found only without one. */
  lemma {:induction false} FirstAccountIsFirst(subjects: seq<Subject>)
    ensures FirstAccount(subjects).None? <==> forall i :: 0 <= i < |subjects| ==> subjects[i].kind != "ServiceAccount"
    ensures forall i :: 0 <= i < |subjects| && subjects[i].kind == "ServiceAccount"
              && (forall j :: 0 <= j < i ==> subjects[j].kind != "ServiceAccount")
              ==> FirstAccount(subjects) == Some(subjects[i].name)
  {
    if subjects != [] {
      FirstAccountIsFirst(subjects[1..]);
      assert forall i :: 0 < i < |subjects| ==> subjects[i] == subjects[1..][i - 1];
      forall i | 0 <= i < |subjects| && subjects[i].kind == "ServiceAccount"
          && (forall j :: 0 <= j < i ==> subjects[j].kind != "ServiceAccount")
        ensures FirstAccount(subjects) == Some(subjects[i].name)
      {
        if i > 0 {
          assert forall j :: 0 <= j < i - 1 ==> subjects[1..][j] == subjects[j + 1];
        }
      }
    }
  }

  /** A binding without a subject list counts as one with no subjects. */
  function SubjectsFor(role: Doc, crbs: map<string, Doc>): Option<seq<Subject>> {
    if role.name !in crbs then None
    else match crbs[role.name].subjects
      case None => Some([])
      case Some(ss) => Some(ss)
  }

  predicate AllDiscovered(roles: seq<Doc>, crbs: map<string, Doc>, operatorName: string) {
    forall i :: 0 <= i < |roles| ==> DiscoverServiceAccount(SubjectsFor(roles[i], crbs), operatorName).Some?
  }

  function ClusterPermissions(roles: seq<Doc>, crbs: map<string, Doc>, operatorName: string): seq<Permission>
    requires AllDiscovered(roles, crbs, operatorName)
  {
    seq(|roles|, i requires 0 <= i < |roles| =>
      Permission(roles[i], DiscoverServiceAccount(SubjectsFor(roles[i], crbs), operatorName).value))
  }

  function ClusterConsumed(roles: seq<Doc>, crbs: map<string, Doc>): seq<Doc> {
    if roles == [] then []
    else
      var n := |roles| - 1;
      ClusterConsumed(roles[..n], crbs) + if roles[n].name in crbs then [crbs[roles[n].name]] else []
  }

  lemma ClusterStep(roles: seq<Doc>, i: nat, crbs: map<string, Doc>, operatorName: string, bindings: seq<Doc>)
    requires i < |roles| && AllDiscovered(roles[..i], crbs, operatorName)
    ensures AllDiscovered(roles[..i + 1], crbs, operatorName) <==>
            DiscoverServiceAccount(SubjectsFor(roles[i], crbs), operatorName).Some?
    ensures AllDiscovered(roles[..i + 1], crbs, operatorName) ==>
              ClusterPermissions(roles[..i + 1], crbs, operatorName) ==
              ClusterPermissions(roles[..i], crbs, operatorName)
              + [Permission(roles[i], DiscoverServiceAccount(SubjectsFor(roles[i], crbs), operatorName).value)]
    ensures WithoutEach(bindings, ClusterConsumed(roles[..i + 1], crbs)) ==
            var trimmed := WithoutEach(bindings, ClusterConsumed(roles[..i], crbs));
            if roles[i].name in crbs then Without(trimmed, crbs[roles[i].name]) else trimmed
  {
    hide DiscoverServiceAccount, SubjectsFor, Without, WithoutEach;
    assert roles[..i + 1][..i] == roles[..i] && roles[..i + 1][i] == roles[i];
    if roles[i].name in crbs {
      WithoutEachSnoc(bindings, ClusterConsumed(roles[..i], crbs), crbs[roles[i].name]);
    } else {
      assert ClusterConsumed(roles[..i + 1], crbs) == ClusterConsumed(roles[..i], crbs);
    }
  }

  // ---- The generator ----

  /** What generation stops with. A Role whose binding has no subject list fails like one without a binding. */
  datatype Failure =
    | UnsupportedKind
    | NoDeployment
    | NoSupplementaryImage
    | NoServiceAccount
    | NoNamespace
    | NoRoleBinding
    | OrphanedBindings

  /** What stops generation, the first thing first. */
  ghost function Verdict(docs: seq<Doc>, operatorName: string, namespace: Option<string>, supplementaryImage: bool)
    : Option<Failure>
  {
    if exists d :: d in docs && !Permitted(d.kind) then Some(UnsupportedKind)
    else if Of(docs, Deployment) == [] then Some(NoDeployment)
    else if |Of(docs, Deployment)| > 1 && !supplementaryImage then Some(NoSupplementaryImage)
    else if !AllDiscovered(Of(docs, ClusterRole), BindingMap(docs, ClusterRoleBinding), operatorName) then
      Some(NoServiceAccount)
    else if namespace.None? then Some(NoNamespace)
    else if exists r :: r in Of(docs, Role) && !Bound(r, BindingMap(docs, RoleBinding)) then Some(NoRoleBinding)
    else None
  }

  class Generator {
    const operatorName: string
    const namespace: Option<string>
    var byKind: Index
    var crbByCr: map<string, Doc>
    var rbByRole: map<string, Doc>
    var clusterPermissions: seq<Permission>
    var permissions: seq<Permission>
    var deployments: seq<Doc>

    constructor (operatorName: string, namespace: Option<string>)
      ensures this.operatorName == operatorName && this.namespace == namespace
      ensures byKind == map[] && crbByCr == map[] && rbByRole == map[]
      ensures clusterPermissions == [] && permissions == [] && deployments == []
    {
      this.operatorName, this.namespace := operatorName, namespace;
      byKind, crbByCr, rbByRole := map[], map[], map[];
      clusterPermissions, permissions, deployments := [], [], [];
    }

    /** The operator's namespace, once the CSV template is known to have one. */
    function Home(): string { Space(namespace) }

    /** Indexes the documents by kind; a kind the registry does not support is an error. */
    method Load(docs: seq<Doc>) returns (ok: bool)
      requires byKind == map[] && crbByCr == map[] && rbByRole == map[]
      modifies this`byKind, this`crbByCr, this`rbByRole
      ensures ok <==> forall d :: d in docs ==> Permitted(d.kind)
      ensures ok ==> forall k :: Group(byKind, k) == Of(docs, k) && (k in byKind <==> Of(docs, k) != [])
      ensures ok ==> crbByCr == BindingMap(docs, ClusterRoleBinding) && rbByRole == BindingMap(docs, RoleBinding)
    {
      assert docs[..0] == [] && (forall k :: Of([], k) == []) && forall k :: BindingMap([], k) == map[];
      hide Permitted, Of, BindingMap;
      for i := 0 to |docs|
        invariant forall j :: 0 <= j < i ==> Permitted(docs[j].kind)
        invariant forall k :: Group(byKind, k) == Of(docs[..i], k) && (k in byKind <==> Of(docs[..i], k) != [])
        invariant crbByCr == BindingMap(docs[..i], ClusterRoleBinding)
        invariant rbByRole == BindingMap(docs[..i], RoleBinding)
      {
        var doc := docs[i];
        LoadStep(docs, i);
        if !Permitted(doc.kind) {
          return false;
        }
        byKind := byKind[doc.kind := Group(byKind, doc.kind) + [doc]];
        if doc.kind == ClusterRoleBinding {
          crbByCr := crbByCr[doc.roleRef := doc];
        }
        if doc.kind == RoleBinding {
          rbByRole := rbByRole[doc.roleRef := doc];
        }
      }
      assert docs[..|docs|] == docs;
      return true;
    }

    /** Removes the first document of the item's name and namespace, if the kind is present at all. */
    method TrimIndex(kind: Kind, item: Doc)
      modifies this`byKind
      ensures byKind == Trimmed(old(byKind), kind, item)
    {
      if kind !in byKind {
        return;
      }
      var docs := byKind[kind];
      for i := 0 to |docs|
        invariant forall j :: 0 <= j < i ==> !SameMeta(docs[j], item)
        invariant byKind == old(byKind)
      {
        if SameMeta(docs[i], item) {
          WithoutSplit(docs, item, i);
          byKind := byKind[kind := docs[..i] + docs[i + 1..]];
          return;
        }
      }
      WithoutAbsent(docs, item);
      assert byKind[kind := docs] == byKind;
    }

    /** Every ClusterRole goes into the CSV; its binding, if any, is consumed. */
    method ProcessClusterRoles() returns (ok: bool)
      requires clusterPermissions == []
      modifies this`byKind, this`clusterPermissions
      ensures var roles := Group(old(byKind), ClusterRole);
              && (ok <==> AllDiscovered(roles, crbByCr, operatorName))
              && (ok ==> clusterPermissions == ClusterPermissions(roles, crbByCr, operatorName))
              && (ok ==> Group(byKind, ClusterRole) == [])
              && (ok ==> Group(byKind, ClusterRoleBinding)
                         == WithoutEach(Group(old(byKind), ClusterRoleBinding), ClusterConsumed(roles, crbByCr)))
              && (ok ==> forall k :: k != ClusterRole && k != ClusterRoleBinding ==>
                           Group(byKind, k) == Group(old(byKind), k))
    {
      var roles := Group(byKind, ClusterRole);
      ghost var bindings := Group(byKind, ClusterRoleBinding);
      assert roles[..0] == [] && WithoutEach(bindings, ClusterConsumed([], crbByCr)) == bindings;
      hide DiscoverServiceAccount, SubjectsFor, Without, WithoutEach, ClusterConsumed;
      for i := 0 to |roles|
        invariant AllDiscovered(roles[..i], crbByCr, operatorName)
        invariant clusterPermissions == ClusterPermissions(roles[..i], crbByCr, operatorName)
        invariant Group(byKind, ClusterRoleBinding) == WithoutEach(bindings, ClusterConsumed(roles[..i], crbByCr))
        invariant forall k :: k != ClusterRoleBinding ==> Group(byKind, k) == Group(old(byKind), k)
      {
        var role := roles[i];
        ClusterStep(roles, i, crbByCr, operatorName, bindings);
        var sa := DiscoverServiceAccount(SubjectsFor(role, crbByCr), operatorName);
        if sa.None? {
          return false;
        }
        if role.name in crbByCr {
          TrimIndex(ClusterRoleBinding, crbByCr[role.name]);
        }
        clusterPermissions := clusterPermissions + [Permission(role, sa.value)];
      }
      assert roles[..|roles|] == roles;
      byKind := byKind - {ClusterRole};
      return true;
    }

    /** Injects one Role into the CSV and takes it and its binding out of the index. */
    method MoveIntoCsv(role: Doc, binding: Doc)
      requires Moves(binding, Home())
      modifies this`byKind, this`permissions
      ensures permissions == old(permissions) + [Permission(role, binding.subjects.value[0].name)]
      ensures Group(byKind, Role) == Without(Group(old(byKind), Role), role)
      ensures Group(byKind, RoleBinding) == Without(Group(old(byKind), RoleBinding), binding)
      ensures forall k :: k != Role && k != RoleBinding ==> Group(byKind, k) == Group(old(byKind), k)
    {
      permissions := permissions + [Permission(role, binding.subjects.value[0].name)];
      TrimIndex(Role, role);
      TrimIndex(RoleBinding, binding);
    }

    /** Walks the Roles while trimming them out of the index it walks; a Role without a usable binding is
        an error. */
    method ProcessRoles() returns (ok: bool)
      requires permissions == []
      modifies this`byKind, this`permissions
      ensures var roles := Group(old(byKind), Role);
              && (ok <==> forall r :: r in roles ==> Bound(r, rbByRole))
              && (ok ==> permissions == Permissions(roles, rbByRole, Home()))
              && (ok ==> Group(byKind, Role) == Stay(roles, rbByRole, Home()))
              && (ok ==> Group(byKind, RoleBinding)
                         == WithoutEach(Group(old(byKind), RoleBinding), Consumed(roles, rbByRole, Home())))
              && (ok ==> forall k :: k != Role && k != RoleBinding ==> Group(byKind, k) == Group(old(byKind), k))
    {
      var ns := Home();
      var roles := Group(byKind, Role);
      ghost var bindings := Group(byKind, RoleBinding);
      assert roles[..0] == [] && Stay([], rbByRole, ns) + roles[0..] == roles;
      assert WithoutEach(bindings, Consumed([], rbByRole, ns)) == bindings;
      assert Permissions([], rbByRole, ns) == [];
      hide Stay, Permissions, Consumed, Without, WithoutEach, Moves;
      for i := 0 to |roles|
        invariant forall j :: 0 <= j < i ==> Bound(roles[j], rbByRole)
        invariant permissions == Permissions(roles[..i], rbByRole, ns)
        invariant Group(byKind, Role) == Stay(roles[..i], rbByRole, ns) + roles[i..]
        invariant Group(byKind, RoleBinding) == WithoutEach(bindings, Consumed(roles[..i], rbByRole, ns))
        invariant forall k :: k != Role && k != RoleBinding ==> Group(byKind, k) == Group(old(byKind), k)
      {
        var role := roles[i];
        if !Bound(role, rbByRole) {
          return false;
        }
        VisitStep(roles, i, rbByRole, ns, bindings);
        var binding := rbByRole[role.name];
        if Moves(binding, ns) {
          MoveIntoCsv(role, binding);
        }
      }
      assert roles[..|roles|] == roles;
      assert Stay(roles, rbByRole, ns) + roles[|roles|..] == Stay(roles, rbByRole, ns);
      return true;
    }

    /** Loads everything and takes the roles and their bindings out of the index. */
    method Prepare(docs: seq<Doc>, supplementaryImage: bool) returns (e: Option<Failure>)
      requires byKind == map[] && crbByCr == map[] && rbByRole == map[]
      requires clusterPermissions == [] && permissions == []
      modifies this`byKind, this`crbByCr, this`rbByRole, this`clusterPermissions, this`permissions
      ensures e == Verdict(docs, operatorName, namespace, supplementaryImage)
      ensures e.None? ==> crbByCr == BindingMap(docs, ClusterRoleBinding) && rbByRole == BindingMap(docs, RoleBinding)
      ensures e.None? ==> AllDiscovered(Of(docs, ClusterRole), crbByCr, operatorName)
      ensures e.None? ==> clusterPermissions == ClusterPermissions(Of(docs, ClusterRole), crbByCr, operatorName)
      ensures e.None? ==> permissions == Permissions(Of(docs, Role), rbByRole, Home())
      ensures e.None? ==> forall k :: k != Deployment && k != ServiceAccount ==>
                            Group(byKind, k) == Bundled(docs, k, Home())
      ensures e.None? ==> Group(byKind, Deployment) == Of(docs, Deployment)
    {
      hide Permitted, Of, BindingMap, WithoutEach, Stay, Consumed, ClusterConsumed, Permissions;
      hide ClusterPermissions, AllDiscovered, Bound, Without, Moves, Space;
      var ok := Load(docs);
      if !ok {
        return Some(UnsupportedKind);
      }
      if Deployment !in byKind {
        return Some(NoDeployment);
      }
      if |byKind[Deployment]| > 1 && !supplementaryImage {
        return Some(NoSupplementaryImage);
      }
      ok := ProcessClusterRoles();
      if !ok {
        return Some(NoServiceAccount);
      }
      if namespace.None? {
        return Some(NoNamespace);
      }
      ok := ProcessRoles();
      e := if ok then None else Some(NoRoleBinding);
    }

    /** The whole generation; what is left in the index is written out document by document. The last check
        is meant to refuse orphaned bindings, but looks for ClusterRoles: it never refuses anything. */
    method Generate(docs: seq<Doc>, supplementaryImage: bool) returns (e: Option<Failure>)
      requires byKind == map[] && crbByCr == map[] && rbByRole == map[]
      requires clusterPermissions == [] && permissions == [] && deployments == []
      modifies this
      ensures e == Verdict(docs, operatorName, namespace, supplementaryImage)
      ensures e != Some(OrphanedBindings)
      ensures e.None? ==> crbByCr == BindingMap(docs, ClusterRoleBinding) && rbByRole == BindingMap(docs, RoleBinding)
      ensures e.None? ==> AllDiscovered(Of(docs, ClusterRole), crbByCr, operatorName)
      ensures e.None? ==> clusterPermissions == ClusterPermissions(Of(docs, ClusterRole), crbByCr, operatorName)
      ensures e.None? ==> permissions == Permissions(Of(docs, Role), rbByRole, Home())
      ensures e.None? ==> deployments == InCsv(Of(docs, Deployment))
      ensures e.None? ==> forall k :: Group(byKind, k) == Bundled(docs, k, Home())
    {
      e := Prepare(docs, supplementaryImage);
      if e.Some? {
        return;
      }
      hide AllDiscovered, Of, WithoutEach, Stay, BindingMap, ClusterPermissions, Permissions;
      var all := Group(byKind, Deployment);
      deployments := [all[0]];
      if |all| > 1 {
        deployments := deployments + [all[1]];
      }
      byKind := byKind - {Deployment, ServiceAccount};
      assert Group(byKind, ClusterRole) == Bundled(docs, ClusterRole, Home());
      var leftover := Group(byKind, ClusterRole);
      e := if leftover != [] then Some(OrphanedBindings) else None;
    }

    /** Generation and the writing of what is left. */
    method WriteBundle(docs: seq<Doc>, supplementaryImage: bool) returns (e: Option<Failure>, files: map<string, Doc>)
      requires byKind == map[] && crbByCr == map[] && rbByRole == map[]
      requires clusterPermissions == [] && permissions == [] && deployments == []
      modifies this
      ensures e == Verdict(docs, operatorName, namespace, supplementaryImage)
      ensures e.None? ==>
                (BundleIntact(docs, Home(), files) <==> BundleCollisionFree(docs, Home()))
      ensures e.None? ==> forall f :: f in files ==>
                FileOf(files[f]) == f && files[f] in docs && ToBundle(docs, files[f], Home())
    {
      hide FileOf, DocsCollide, ToBundle;
      e := Generate(docs, supplementaryImage);
      files := map[];
      if e.None? {
        files := BundleRest();
        AllPermitted(docs, operatorName, namespace, supplementaryImage);
        BundleIntactExactly(docs, Home(), files, byKind);
        FilesAreOfBundled(docs, Home(), files, byKind);
      }
    }

    method BundleKind(files: map<string, Doc>, docs: seq<Doc>) returns (more: map<string, Doc>)
      ensures Wrote(files, more, docs)
    {
      hide FileOf;
      more := files;
      for i := 0 to |docs|
        invariant Wrote(files, more, docs[..i])
      {
        assert docs[..i + 1] == docs[..i] + [docs[i]];
        more := more[FileOf(docs[i]) := docs[i]];
      }
      assert docs[..|docs|] == docs;
    }

    /** Writes what is left, in any order of kinds. Each file ends up with one of the documents of that
        file name, and each document has such a file. */
    method BundleRest() returns (files: map<string, Doc>)
      ensures WrittenOut(files, byKind, byKind.Keys)
    {
      hide WrittenOut, Group;
      assert WrittenOut(map[], byKind, {}) by { NothingWritten(byKind); }
      assert byKind.Keys - byKind.Keys == {};
      files := map[];
      var rest := byKind.Keys;
      while rest != {}
        invariant rest <= byKind.Keys
        invariant WrittenOut(files, byKind, byKind.Keys - rest)
        decreases |rest|
      {
        var kind :| kind in rest;
        var more := BundleKind(files, byKind[kind]);
        WrittenOneMore(files, more, byKind, byKind.Keys - rest, kind);
        assert byKind.Keys - (rest - {kind}) == byKind.Keys - rest + {kind};
        files, rest := more, rest - {kind};
      }
      assert byKind.Keys - {} == byKind.Keys;
    }
  }

  ghost predicate WrittenOut(files: map<string, Doc>, index: Index, kinds: set<Kind>) {
    && (forall k, d :: k in kinds && d in Group(index, k) ==> FileOf(d) in files)
    && (forall f :: f in files ==> FileOf(files[f]) == f && exists k :: k in kinds && files[f] in Group(index, k))
  }

  /** The documents were written on top of the files there were. */
  ghost predicate Wrote(before: map<string, Doc>, files: map<string, Doc>, docs: seq<Doc>) {
    && (forall f :: f in before ==> f in files)
    && (forall d :: d in docs ==> FileOf(d) in files)
    && (forall f :: f in files ==>
          (f in before && files[f] == before[f]) || (FileOf(files[f]) == f && files[f] in docs))
  }

  lemma NothingWritten(index: Index)
    ensures WrittenOut(map[], index, {})
  {
  }

  lemma WrittenOneMore(before: map<string, Doc>, files: map<string, Doc>, index: Index, kinds: set<Kind>, kind: Kind)
    requires WrittenOut(before, index, kinds) && kind in index && Wrote(before, files, index[kind])
    ensures WrittenOut(files, index, kinds + {kind})
  {
    forall f | f in files
      ensures FileOf(files[f]) == f && exists k :: k in kinds + {kind} && files[f] in Group(index, k)
    {
      if f in before && files[f] == before[f] {
        var k :| k in kinds && files[f] in Group(index, k);
        assert k in kinds + {kind};
      } else {
        assert kind in kinds + {kind} && files[f] in Group(index, kind);
      }
    }
  }

  /** At most two Deployments go into the CSV; further ones are dropped. */
  function InCsv(deployments: seq<Doc>): seq<Doc> {
    if |deployments| <= 2 then deployments else deployments[..2]
  }

  ghost predicate Supported(docs: seq<Doc>) { forall d :: d in docs ==> Permitted(d.kind) }

  ghost predicate Deployed(docs: seq<Doc>) { exists d :: d in docs && d.kind == Deployment }

  predicate HasAccount(subjects: seq<Subject>) {
    exists i :: 0 <= i < |subjects| && subjects[i].kind == "ServiceAccount"
  }

  /** Every binding found for a ClusterRole has a ServiceAccount subject. */
  ghost predicate AccountsFound(docs: seq<Doc>, crbs: map<string, Doc>) {
    forall r :: r in docs && r.kind == ClusterRole && r.name in crbs ==>
      crbs[r.name].subjects.Some? && HasAccount(crbs[r.name].subjects.value)
  }

  ghost predicate RolesBound(docs: seq<Doc>, rbs: map<string, Doc>) {
    forall r :: r in docs && r.kind == Role ==> r.name in rbs && rbs[r.name].subjects.Some?
  }

  /** Generation succeeds exactly when every kind is permitted, there is a Deployment, any more come with a
      supplementary image, every binding found for a ClusterRole has a ServiceAccount subject, the CSV has a
      namespace, and every Role has a binding with subjects; and each failure means what it says. */
  lemma VerdictMeans(docs: seq<Doc>, operatorName: string, namespace: Option<string>, supplementaryImage: bool)
    ensures var v := Verdict(docs, operatorName, namespace, supplementaryImage);
            var accounts := AccountsFound(docs, BindingMap(docs, ClusterRoleBinding));
            var start := Supported(docs) && Deployed(docs) && (supplementaryImage || |Of(docs, Deployment)| <= 1);
            && (v == None <==>
                  start && accounts && namespace.Some? && RolesBound(docs, BindingMap(docs, RoleBinding)))
            && (v == Some(UnsupportedKind) <==> !Supported(docs))
            && (v == Some(NoDeployment) <==> Supported(docs) && !Deployed(docs))
            && (v == Some(NoSupplementaryImage) <==> Supported(docs) && Deployed(docs) && !start)
            && (v == Some(NoServiceAccount) <==> start && !accounts)
            && (v == Some(NoNamespace) <==> start && accounts && namespace.None?)
            && v != Some(OrphanedBindings)
  {
    Loaded(docs, Deployment);
    Loaded(docs, ClusterRole);
    Loaded(docs, Role);
    AllDiscoveredMeans(Of(docs, ClusterRole), BindingMap(docs, ClusterRoleBinding), operatorName);
    hide Of, BindingMap, AllDiscovered, Permitted, HasAccount;
    if Of(docs, Deployment) != [] {
      assert Of(docs, Deployment)[0] in Of(docs, Deployment);
    }
  }

  lemma AllDiscoveredMeans(roles: seq<Doc>, crbs: map<string, Doc>, operatorName: string)
    ensures AllDiscovered(roles, crbs, operatorName) <==>
            forall r :: r in roles && r.name in crbs ==>
              crbs[r.name].subjects.Some? && HasAccount(crbs[r.name].subjects.value)
  {
    forall i | 0 <= i < |roles|
      ensures DiscoverServiceAccount(SubjectsFor(roles[i], crbs), operatorName).Some? <==>
              (roles[i].name in crbs ==> crbs[roles[i].name].subjects.Some?
                                         && HasAccount(crbs[roles[i].name].subjects.value))
    {
      if roles[i].name in crbs && crbs[roles[i].name].subjects.Some? {
        FirstAccountIsFirst(crbs[roles[i].name].subjects.value);
      }
    }
    hide DiscoverServiceAccount, SubjectsFor, HasAccount;
  }

  /** The account of each ClusterRole: the operator's own without a binding, otherwise that of the first
      ServiceAccount subject of the binding. */
  lemma ClusterAccounts(roles: seq<Doc>, crbs: map<string, Doc>, operatorName: string, i: nat)
    requires AllDiscovered(roles, crbs, operatorName) && i < |roles|
    ensures var p := ClusterPermissions(roles, crbs, operatorName)[i];
            && p.role == roles[i]
            && if roles[i].name !in crbs then p.serviceAccount == operatorName
               else
                 && crbs[roles[i].name].subjects.Some?
                 && var ss := crbs[roles[i].name].subjects.value;
                 exists k :: 0 <= k < |ss| && ss[k].kind == "ServiceAccount" && ss[k].name == p.serviceAccount
                             && forall j :: 0 <= j < k ==> ss[j].kind != "ServiceAccount"
  {
    if roles[i].name in crbs && crbs[roles[i].name].subjects.Some? {
      var k := FirstAccountAt(crbs[roles[i].name].subjects.value);
    }
  }

  lemma {:induction false} FirstAccountAt(ss: seq<Subject>) returns (k: nat)
    requires FirstAccount(ss).Some?
    ensures k < |ss| && ss[k].kind == "ServiceAccount" && ss[k].name == FirstAccount(ss).value
    ensures forall j :: 0 <= j < k ==> ss[j].kind != "ServiceAccount"
  {
    if ss[0].kind == "ServiceAccount" {
      k := 0;
    } else {
      k := FirstAccountAt(ss[1..]);
      k := k + 1;
      assert forall j :: 0 < j < |ss| ==> ss[j] == ss[1..][j - 1];
    }
  }

  /** What is bundled of each kind. */
  function Bundled(docs: seq<Doc>, kind: Kind, namespace: string): seq<Doc> {
    match kind
    case ClusterRole => []
    case Deployment => []
    case ServiceAccount => []
    case ClusterRoleBinding =>
      WithoutEach(Of(docs, kind), ClusterConsumed(Of(docs, ClusterRole), BindingMap(docs, ClusterRoleBinding)))
    case Role => Stay(Of(docs, kind), BindingMap(docs, RoleBinding), namespace)
    case RoleBinding =>
      WithoutEach(Of(docs, kind), Consumed(Of(docs, Role), BindingMap(docs, RoleBinding), namespace))
    case Generic(_) => Of(docs, kind)
  }

  // ---- Conservation ----

  /** No document is lost or duplicated unnoticed: of every kind, what was loaded is what is bundled, what
      moved into the CSV and what is gone. Gone are the ServiceAccounts, the Deployments after the second,
      and bindings of the name and namespace of a consumed binding. */
  lemma DocumentsConserved(docs: seq<Doc>, k: Kind, namespace: string) returns (gone: seq<Doc>)
    ensures multiset(Of(docs, k)) ==
            multiset(Bundled(docs, k, namespace)) + multiset(IntoCsv(docs, k, namespace)) + multiset(gone)
    ensures k == ServiceAccount ==> gone == Of(docs, k)
    ensures k == Deployment ==>
              IntoCsv(docs, k, namespace) + gone == Of(docs, k) && (gone == [] <==> |Of(docs, k)| <= 2)
    ensures k == RoleBinding || k == ClusterRoleBinding ==>
              |gone| <= |ConsumedOf(docs, k, namespace)|
              && forall d :: d in gone ==>
                   exists i :: 0 <= i < |ConsumedOf(docs, k, namespace)|
                               && SameMeta(d, ConsumedOf(docs, k, namespace)[i])
    ensures k == ClusterRole || k == Role || k.Generic? ==> gone == []
  {
    hide Of, BindingMap, Stay, Permissions, RolesOf, Consumed, ClusterConsumed, WithoutEach;
    gone := [];
    match k {
      case Role => RolesConserved(Of(docs, Role), BindingMap(docs, RoleBinding), namespace);
      case RoleBinding => gone := WithoutEachConserves(Of(docs, k), ConsumedOf(docs, k, namespace));
      case ClusterRoleBinding => gone := WithoutEachConserves(Of(docs, k), ConsumedOf(docs, k, namespace));
      case ServiceAccount => gone := Of(docs, k);
      case Deployment =>
        var kept := InCsv(Of(docs, k));
        gone := Of(docs, k)[|kept|..];
        assert Of(docs, k) == kept + gone;
      case _ =>
    }
  }

  /** The same for the whole input: every copy of every loaded document ends up in exactly one place. */
  lemma EveryDocumentAccountedFor(docs: seq<Doc>, d: Doc, namespace: string) returns (gone: seq<Doc>)
    ensures multiset(docs)[d] == multiset(Bundled(docs, d.kind, namespace))[d]
                                 + multiset(IntoCsv(docs, d.kind, namespace))[d] + multiset(gone)[d]
    ensures forall k :: k != d.kind ==> d !in multiset(Of(docs, k))
    ensures d.kind == ClusterRole || d.kind == Role || d.kind.Generic? ==> gone == []
    ensures d.kind == Deployment ==> (gone == [] <==> |Of(docs, Deployment)| <= 2)
  {
    hide Of, Bundled, IntoCsv;
    gone := DocumentsConserved(docs, d.kind, namespace);
    forall k ensures multiset(Of(docs, k))[d] == if d.kind == k then multiset(docs)[d] else 0 {
      OfIsExact(docs, k, d);
    }
  }

  ghost predicate DistinctMeta(docs: seq<Doc>) {
    forall i, j :: 0 <= i < j < |docs| ==> !SameMeta(docs[i], docs[j])
  }

  lemma FirstStays(docs: seq<Doc>, item: Doc)
    requires docs != [] && !SameMeta(docs[0], item)
    requires DistinctMeta(Without(docs[1..], item))
    requires forall d :: d in Without(docs[1..], item) ==> !SameMeta(docs[0], d)
    ensures Without(docs, item) == [docs[0]] + Without(docs[1..], item) && DistinctMeta(Without(docs, item))
    ensures forall d :: d in Without(docs, item) <==> d == docs[0] || d in Without(docs[1..], item)
  {
    hide SameMeta;
  }

  lemma {:induction false} WithoutIsFilter(docs: seq<Doc>, item: Doc)
    requires DistinctMeta(docs)
    ensures DistinctMeta(Without(docs, item))
    ensures forall d :: d in Without(docs, item) <==> d in docs && !SameMeta(d, item)
  {
    if docs != [] {
      var rest := docs[1..];
      assert forall i :: 0 < i < |docs| ==> docs[i] == rest[i - 1];
      assert forall d :: d in docs <==> d == docs[0] || d in rest;
      WithoutIsFilter(rest, item);
      assert forall d :: d in rest ==> !SameMeta(docs[0], d);
      if !SameMeta(docs[0], item) {
        FirstStays(docs, item);
      }
    }
  }

  /** When no two bindings share name and namespace, exactly the consumed ones are missing, although
      several roles may consume the same one. */
  lemma {:induction false} WithoutEachIsFilter(docs: seq<Doc>, items: seq<Doc>)
    requires DistinctMeta(docs)
    ensures forall d :: d in WithoutEach(docs, items) <==>
              d in docs && forall i :: 0 <= i < |items| ==> !SameMeta(d, items[i])
    decreases |items|
  {
    if items != [] {
      WithoutIsFilter(docs, items[0]);
      WithoutEachIsFilter(Without(docs, items[0]), items[1..]);
      assert forall i :: 0 < i < |items| ==> items[i] == items[1..][i - 1];
    }
  }

  lemma {:induction false} ClusterConsumedIsExact(roles: seq<Doc>, crbs: map<string, Doc>, x: Doc)
    ensures x in ClusterConsumed(roles, crbs) <==> exists r :: r in roles && r.name in crbs && crbs[r.name] == x
  {
    if roles != [] {
      var n := |roles| - 1;
      assert roles == roles[..n] + [roles[n]];
      ClusterConsumedIsExact(roles[..n], crbs, x);
    }
  }

  lemma {:induction false} ConsumedIsExact(roles: seq<Doc>, rbs: map<string, Doc>, namespace: string, x: Doc)
    ensures x in Consumed(roles, rbs, namespace) <==>
            exists r :: r in roles && Moved(r, rbs, namespace) && rbs[r.name] == x
  {
    if roles != [] {
      var n := |roles| - 1;
      assert roles == roles[..n] + [roles[n]];
      ConsumedIsExact(roles[..n], rbs, namespace, x);
    }
  }

  lemma Loaded(docs: seq<Doc>, kind: Kind)
    ensures forall d :: d in Of(docs, kind) <==> d in docs && d.kind == kind
  {
    forall d ensures d in multiset(Of(docs, kind)) <==> d in multiset(docs) && d.kind == kind {
      OfIsExact(docs, kind, d);
    }
  }

  /** Some loaded ClusterRole looks up a binding of that name and namespace. */
  ghost predicate Claimed(docs: seq<Doc>, d: Doc) {
    var crbs := BindingMap(docs, ClusterRoleBinding);
    exists r :: r in docs && r.kind == ClusterRole && r.name in crbs
                && d.name == crbs[r.name].name && d.namespace == crbs[r.name].namespace
  }

  /** A ClusterRoleBinding is bundled if and only if no ClusterRole claims it: orphans are never refused. */
  lemma OrphansAreBundled(docs: seq<Doc>, d: Doc, namespace: string)
    requires DistinctMeta(Of(docs, ClusterRoleBinding))
    ensures d in Bundled(docs, ClusterRoleBinding, namespace) <==>
            d in docs && d.kind == ClusterRoleBinding && !Claimed(docs, d)
  {
    hide Of, BindingMap, ClusterConsumed;
    var roles, crbs := Of(docs, ClusterRole), BindingMap(docs, ClusterRoleBinding);
    var consumed := ClusterConsumed(roles, crbs);
    WithoutEachIsFilter(Of(docs, ClusterRoleBinding), consumed);
    Loaded(docs, ClusterRole);
    Loaded(docs, ClusterRoleBinding);
    if Claimed(docs, d) {
      var r :| r in docs && r.kind == ClusterRole && r.name in crbs && SameMeta(d, crbs[r.name]);
      ClusterConsumedIsExact(roles, crbs, crbs[r.name]);
      var i :| 0 <= i < |consumed| && consumed[i] == crbs[r.name];
    } else {
      forall i | 0 <= i < |consumed| ensures !SameMeta(d, consumed[i]) {
        ClusterConsumedIsExact(roles, crbs, consumed[i]);
      }
    }
  }

  lemma OneOfAName(docs: seq<Doc>, a: Doc, b: Doc)
    requires DistinctMeta(docs) && a in docs && b in docs && a.name == b.name && a.namespace == b.namespace
    ensures a == b
  {
    var i :| 0 <= i < |docs| && docs[i] == a;
    var j :| 0 <= j < |docs| && docs[j] == b;
    assert SameMeta(docs[i], docs[j]) && SameMeta(docs[j], docs[i]);
  }

  /** In particular one whose ClusterRole is missing. */
  lemma MissingRoleOrphans(docs: seq<Doc>, d: Doc, namespace: string)
    requires DistinctMeta(Of(docs, ClusterRoleBinding)) && d in docs && d.kind == ClusterRoleBinding
    requires forall r :: r in docs && r.kind == ClusterRole ==> r.name != d.roleRef
    ensures d in Bundled(docs, ClusterRoleBinding, namespace)
  {
    hide Of, BindingMap, Bundled;
    var crbs := BindingMap(docs, ClusterRoleBinding);
    OrphansAreBundled(docs, d, namespace);
    if Claimed(docs, d) {
      var r :| r in docs && r.kind == ClusterRole && r.name in crbs
               && d.name == crbs[r.name].name && d.namespace == crbs[r.name].namespace;
      BindingMapIsLast(docs, ClusterRoleBinding, r.name);
      Loaded(docs, ClusterRoleBinding);
      OneOfAName(Of(docs, ClusterRoleBinding), d, crbs[r.name]);
    }
  }

  /** A RoleBinding is bundled if and only if no Role that moves into the CSV looks up one of its name and
      namespace. */
  lemma RoleBindingsLeft(docs: seq<Doc>, d: Doc, namespace: string)
    requires DistinctMeta(Of(docs, RoleBinding))
    ensures d in Bundled(docs, RoleBinding, namespace) <==>
            && d in docs && d.kind == RoleBinding
            && var rbs := BindingMap(docs, RoleBinding);
            !exists r :: r in docs && r.kind == Role && r.name in rbs && !KeepsOut(rbs[r.name].subjects, namespace)
                         && d.name == rbs[r.name].name && d.namespace == rbs[r.name].namespace
  {
    forall b ensures Moves(b, namespace) <==> !KeepsOut(b.subjects, namespace) {
      MovesMeans(b, namespace);
    }
    hide Of, BindingMap, Consumed, Moves, KeepsOut;
    var roles, rbs := Of(docs, Role), BindingMap(docs, RoleBinding);
    var consumed := Consumed(roles, rbs, namespace);
    WithoutEachIsFilter(Of(docs, RoleBinding), consumed);
    Loaded(docs, Role);
    Loaded(docs, RoleBinding);
    forall r | r in roles && Moved(r, rbs, namespace) ensures rbs[r.name] in consumed {
      ConsumedIsExact(roles, rbs, namespace, rbs[r.name]);
    }
    forall i | 0 <= i < |consumed|
      ensures exists r :: r in roles && Moved(r, rbs, namespace) && rbs[r.name] == consumed[i]
    {
      ConsumedIsExact(roles, rbs, namespace, consumed[i]);
    }
  }

  /** The documents of a kind that the CSV takes in. */
  function IntoCsv(docs: seq<Doc>, k: Kind, namespace: string): seq<Doc> {
    match k
    case ClusterRole => Of(docs, k)
    case Role => RolesOf(Permissions(Of(docs, k), BindingMap(docs, RoleBinding), namespace))
    case Deployment => InCsv(Of(docs, k))
    case _ => []
  }

  function ConsumedOf(docs: seq<Doc>, k: Kind, namespace: string): seq<Doc> {
    match k
    case ClusterRoleBinding => ClusterConsumed(Of(docs, ClusterRole), BindingMap(docs, ClusterRoleBinding))
    case RoleBinding => Consumed(Of(docs, Role), BindingMap(docs, RoleBinding), namespace)
    case _ => []
  }

  // ---- File names ----

  function FilenameFor(kind: string, namespace: Option<string>, name: string): string {
    (if namespace.Some? && namespace.value != "" then kind + "_" + namespace.value + "_" + name
     else kind + "_" + name) + ".yaml"
  }

  function KindName(kind: Kind): string {
    match kind
    case ClusterRole => "ClusterRole"
    case ClusterRoleBinding => "ClusterRoleBinding"
    case Role => "Role"
    case RoleBinding => "RoleBinding"
    case Deployment => "Deployment"
    case ServiceAccount => "ServiceAccount"
    case Generic(name) => name
  }

  function FileOf(d: Doc): string { FilenameFor(KindName(d.kind), d.namespace, d.name) }

  predicate Plain(s: string) { '_' !in s }

  lemma Separator(a: string, b: string, s: string)
    requires Plain(a) && s == a + "_" + b
    ensures |a| < |s| && s[|a|] == '_' && s[..|a|] == a && s[|a| + 1..] == b
    ensures forall j :: 0 <= j < |a| ==> s[j] != '_'
  {
    assert forall j :: 0 <= j < |a| ==> s[j] == a[j] && a[j] in a;
  }

  /** Text up to the first underscore is determined by the whole. */
  lemma FirstPart(a: string, b: string, a': string, b': string)
    requires Plain(a) && Plain(a') && a + "_" + b == a' + "_" + b'
    ensures a == a' && b == b'
  {
    Separator(a, b, a + "_" + b);
    Separator(a', b', a + "_" + b);
  }

  /** The kinds the registry accepts, by name. */
  const PERMITTED_RESOURCES := [
    "ClusterServiceVersion", "CustomResourceDefinition", "Deployment", "Secret", "ClusterRole", "ClusterRoleBinding",
    "ConfigMap", "ServiceAccount", "Service", "Role", "RoleBinding", "PrometheusRule", "ServiceMonitor",
    "PodDisruptionBudget", "PriorityClass", "VerticalPodAutoscaler", "ConsoleYamlSample"]

  /** The kind a document says it has. */
  function KindOf(name: string): Kind {
    if name == "ClusterRole" then ClusterRole
    else if name == "ClusterRoleBinding" then ClusterRoleBinding
    else if name == "Role" then Role
    else if name == "RoleBinding" then RoleBinding
    else if name == "Deployment" then Deployment
    else if name == "ServiceAccount" then ServiceAccount
    else Generic(name)
  }

  /** Names and kinds correspond, and exactly the seventeen names are permitted. */
  lemma KindsByName(name: string)
    ensures KindName(KindOf(name)) == name
    ensures Permitted(KindOf(name)) <==> name in PERMITTED_RESOURCES
  {
  }

  lemma KindsHaveNames(kind: Kind)
    requires Permitted(kind)
    ensures KindOf(KindName(kind)) == kind
  {
  }

  /** No kind the registry accepts contains an underscore. */
  lemma KindsArePlain(kind: Kind)
    requires Permitted(kind)
    ensures Plain(KindName(kind))
  {
    match kind {
      case Generic(name) =>
        hide *;
        GenericKindsArePlain(name);
      case _ =>
    }
  }

  lemma GenericKindsArePlain(name: string)
    requires name in GENERIC_KINDS
    ensures Plain(name)
  {
  }

  /** A missing namespace and an empty one name the same resource. */
  function Space(namespace: Option<string>): string { if namespace.None? then "" else namespace.value }

  /** What follows the kind in a file name. */
  function Stem(space: string, name: string): string { if space == "" then name else space + "_" + name }

  /** The shorter namespace, with the start of its resource's name, reads like the longer one. */
  predicate Reads(space: string, name: string, space': string, name': string) {
    && |space| < |space'| && space <= space'
    && if space == "" then name == space' + "_" + name'
       else space'[|space|] == '_' && name == space'[|space| + 1..] + "_" + name'
  }

  predicate Collide(space: string, name: string, space': string, name': string) {
    || (space == space' && name == name')
    || Reads(space, name, space', name')
    || Reads(space', name', space, name)
  }

  lemma LongerSpace(space: string, name: string, space': string, name': string)
    requires |space| < |space'|
    ensures Stem(space, name) == Stem(space', name') <==> Reads(space, name, space', name')
  {
    var a, b := Stem(space, name), Stem(space', name');
    if a == b && space != "" {
      assert a[..|space|] == space && b[..|space|] == space'[..|space|];
      assert a[|space|] == '_' && b[|space|] == space'[|space|];
      assert a[|space| + 1..] == name && b[|space| + 1..] == space'[|space| + 1..] + "_" + name';
    }
    if Reads(space, name, space', name') && space != "" {
      assert space' == space + "_" + space'[|space| + 1..];
      assert a == space + "_" + (space'[|space| + 1..] + "_" + name');
    }
  }

  lemma StemsCollide(space: string, name: string, space': string, name': string)
    ensures Stem(space, name) == Stem(space', name') <==> Collide(space, name, space', name')
  {
    if |space| < |space'| {
      LongerSpace(space, name, space', name');
    } else if |space'| < |space| {
      LongerSpace(space', name', space, name);
    } else {
      SameSpaceLength(space, name, space', name');
    }
  }

  lemma SameSpaceLength(space: string, name: string, space': string, name': string)
    requires |space| == |space'|
    ensures Stem(space, name) == Stem(space', name') <==> space == space' && name == name'
  {
    var a, b := Stem(space, name), Stem(space', name');
    if a == b && space != "" {
      assert a[..|space|] == space && b[..|space|] == space';
      assert a[|space| + 1..] == name && b[|space| + 1..] == name';
    }
  }

  lemma SameStem(a: string, b: string, suffix: string)
    requires a + suffix == b + suffix
    ensures a == b
  {
    assert a == (a + suffix)[..|a|] && b == (b + suffix)[..|b|];
  }

  /** Two file names are equal if and only if the kinds are, and either the resources are the same or one
      name begins with what the other has in its namespace. */
  lemma FilenamesCollideExactly(k: string, ns: Option<string>, n: string, k': string, ns': Option<string>, n': string)
    requires Plain(k) && Plain(k')
    ensures FilenameFor(k, ns, n) == FilenameFor(k', ns', n') <==> k == k' && Collide(Space(ns), n, Space(ns'), n')
  {
    var yaml, stem, stem' := ".yaml", Stem(Space(ns), n), Stem(Space(ns'), n');
    assert FilenameFor(k, ns, n) == k + "_" + (stem + yaml) by { FileHasStem(k, ns, n); }
    assert FilenameFor(k', ns', n') == k' + "_" + (stem' + yaml) by { FileHasStem(k', ns', n'); }
    StemsCollide(Space(ns), n, Space(ns'), n');
    hide FilenameFor, Stem, Collide;
    if FilenameFor(k, ns, n) == FilenameFor(k', ns', n') {
      FirstPart(k, stem + yaml, k', stem' + yaml);
      SameStem(stem, stem', yaml);
    }
  }

  lemma FileHasStem(k: string, ns: Option<string>, n: string)
    ensures FilenameFor(k, ns, n) == k + "_" + (Stem(Space(ns), n) + ".yaml")
  {
    var yaml := ".yaml";
    if Space(ns) != "" {
      assert k + "_" + Space(ns) + "_" + n + yaml == k + "_" + (Space(ns) + "_" + n + yaml);
    } else {
      assert k + "_" + n + yaml == k + "_" + (n + yaml);
    }
  }

  /** For namespaces without underscores, as Kubernetes has them, only a resource without a namespace can be
      mistaken for one with a namespace. */
  lemma PlainSpacesCollide(space: string, name: string, space': string, name': string)
    requires Plain(space) && Plain(space')
    ensures Collide(space, name, space', name') <==>
            || (space == space' && name == name')
            || (space == "" && space' != "" && name == space' + "_" + name')
            || (space' == "" && space != "" && name' == space + "_" + name)
  {
  }

  /** Hence names without underscores never collide. */
  lemma FilenamesAreUnique(k: string, ns: Option<string>, n: string, k': string, ns': Option<string>, n': string)
    requires Plain(k) && Plain(Space(ns)) && Plain(n) && Plain(k') && Plain(Space(ns')) && Plain(n')
    requires FilenameFor(k, ns, n) == FilenameFor(k', ns', n')
    ensures k == k' && Space(ns) == Space(ns') && n == n'
  {
    hide FilenameFor, Collide;
    FilenamesCollideExactly(k, ns, n, k', ns', n');
    PlainSpacesCollide(Space(ns), n, Space(ns'), n');
    assert forall a: string, b: string :: '_' in a + "_" + b;
  }

  /** No two different documents collide. */
  ghost predicate NoCollisions(index: Index) {
    forall k, k', a, b :: k in index && k' in index && a in index[k] && b in index[k'] && DocsCollide(a, b) ==> a == b
  }

  predicate DocsCollide(a: Doc, b: Doc) {
    a.kind == b.kind && Collide(Space(a.namespace), a.name, Space(b.namespace), b.name)
  }

  lemma FilesCollide(a: Doc, b: Doc)
    requires Permitted(a.kind) && Permitted(b.kind)
    ensures FileOf(a) == FileOf(b) <==> DocsCollide(a, b)
  {
    hide FilenameFor, Collide, KindName, KindOf, Plain, Permitted;
    KindsArePlain(a.kind);
    KindsArePlain(b.kind);
    KindsHaveNames(a.kind);
    KindsHaveNames(b.kind);
    FilenamesCollideExactly(KindName(a.kind), a.namespace, a.name, KindName(b.kind), b.namespace, b.name);
  }

  ghost predicate AllIntact(files: map<string, Doc>, index: Index) {
    forall k, d :: k in index && d in index[k] ==> FileOf(d) in files && files[FileOf(d)] == d
  }

  /** Every bundled document is found intact in its own file if and only if no two different ones collide. */
  lemma NothingOverwritten(files: map<string, Doc>, index: Index)
    requires WrittenOut(files, index, index.Keys)
    requires forall k, d :: k in index && d in index[k] ==> Permitted(d.kind)
    ensures AllIntact(files, index) <==> NoCollisions(index)
  {
    hide FileOf, DocsCollide, Permitted;
    if AllIntact(files, index) {
      forall k, k', a, b | k in index && k' in index && a in index[k] && b in index[k'] && DocsCollide(a, b)
        ensures a == b
      {
        FilesCollide(a, b);
      }
    }
    if NoCollisions(index) {
      forall k, d | k in index && d in index[k]
        ensures FileOf(d) in files && files[FileOf(d)] == d
      {
        assert d in Group(index, k);
        var e := files[FileOf(d)];
        var k' :| k' in index.Keys && e in Group(index, k');
        FilesCollide(d, e);
      }
    }
  }

  /** The loaded documents that are to be bundled. */
  ghost predicate ToBundle(docs: seq<Doc>, d: Doc, namespace: string) {
    d in Bundled(docs, d.kind, namespace)
  }

  ghost predicate BundleIntact(docs: seq<Doc>, namespace: string, files: map<string, Doc>) {
    forall d :: d in docs && ToBundle(docs, d, namespace) ==> FileOf(d) in files && files[FileOf(d)] == d
  }

  ghost predicate BundleCollisionFree(docs: seq<Doc>, namespace: string) {
    forall a, b :: a in docs && b in docs && ToBundle(docs, a, namespace) && ToBundle(docs, b, namespace) ==>
      DocsCollide(a, b) ==> a == b
  }

  /** What is bundled of a kind was loaded, and is of that kind. */
  lemma BundledIsLoaded(docs: seq<Doc>, k: Kind, namespace: string, d: Doc)
    requires d in Bundled(docs, k, namespace)
    ensures d in docs && d.kind == k
  {
    hide Of, Stay, WithoutEach;
    Loaded(docs, k);
    match k {
      case Role => StayersDoNotMove(Of(docs, k), BindingMap(docs, RoleBinding), namespace);
      case RoleBinding =>
        WithoutEachIsPart(Of(docs, k), ConsumedOf(docs, k, namespace), d);
      case ClusterRoleBinding =>
        WithoutEachIsPart(Of(docs, k), ConsumedOf(docs, k, namespace), d);
      case _ =>
    }
  }

  lemma WithoutEachIsPart(docs: seq<Doc>, items: seq<Doc>, d: Doc)
    requires d in WithoutEach(docs, items)
    ensures d in docs
  {
    var gone := WithoutEachConserves(docs, items);
    assert d in multiset(WithoutEach(docs, items));
    assert d in multiset(docs);
  }

  lemma AllPermitted(docs: seq<Doc>, operatorName: string, namespace: Option<string>, supplementaryImage: bool)
    requires Verdict(docs, operatorName, namespace, supplementaryImage).None?
    ensures forall d :: d in docs ==> Permitted(d.kind)
  {
    hide Permitted, Of, AllDiscovered, Bound, BindingMap;
  }

  lemma FilesAreOfBundled(docs: seq<Doc>, namespace: string, files: map<string, Doc>, index: Index)
    requires forall k :: Group(index, k) == Bundled(docs, k, namespace)
    requires WrittenOut(files, index, index.Keys)
    ensures forall f :: f in files ==>
              FileOf(files[f]) == f && files[f] in docs && ToBundle(docs, files[f], namespace)
  {
    hide Bundled, FileOf;
    forall f | f in files ensures FileOf(files[f]) == f && files[f] in docs && ToBundle(docs, files[f], namespace) {
      var k :| k in index.Keys && files[f] in Group(index, k);
      BundledIsLoaded(docs, k, namespace, files[f]);
    }
  }

  /** From the loaded documents to the files: every document to be bundled is found intact in its own file if
      and only if no two different ones of them collide. */
  lemma BundleIntactExactly(docs: seq<Doc>, namespace: string, files: map<string, Doc>, index: Index)
    requires forall d :: d in docs ==> Permitted(d.kind)
    requires forall k :: Group(index, k) == Bundled(docs, k, namespace)
    requires WrittenOut(files, index, index.Keys)
    ensures BundleIntact(docs, namespace, files) <==> BundleCollisionFree(docs, namespace)
  {
    hide Bundled, FileOf, DocsCollide, Permitted, WrittenOut;
    forall k, d | k in index && d in index[k]
      ensures d in docs && d.kind == k && ToBundle(docs, d, namespace)
    {
      assert d in Group(index, k);
      BundledIsLoaded(docs, k, namespace, d);
    }
    forall d | d in docs && ToBundle(docs, d, namespace)
      ensures d.kind in index && d in index[d.kind]
    {
      assert d in Group(index, d.kind);
    }
    NothingOverwritten(files, index);
  }

  /** A collision that needs no odd namespace: any name may be spelt with one in front. */
  lemma UnderscoresCollide(kind: string, a: string, b: string)
    requires a != ""
    ensures FilenameFor(kind, Some(a), b) == FilenameFor(kind, None, a + "_" + b)
  {
    assert kind + "_" + a + "_" + b == kind + "_" + (a + "_" + b);
  }
}
